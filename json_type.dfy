/** `convertJsonTypeToTypeScript`: the schema pipeline's own renderer, from a JSON description of
    a type to TypeScript text. */
module JsonTypes {
  import opened Common

  /** The value of a `literal` description: a string, or any other JSON value together with the
      text `String(value)` gives for it (`undefined` when the field is missing). */
  datatype LiteralValue = Str(s: string) | Other(text: string)

  /** A JSON type description. A missing field is its empty value: `""` for `kind` and
      `typeName`, `[]` for the lists, `None` for a nested description. */
  datatype JsonType = JsonType(
    kind: string,
    typeName: string,
    properties: seq<JsonProperty>,
    elementType: Option<JsonType>,
    types: seq<JsonType>,
    value: LiteralValue,
    parameters: seq<JsonParameter>,
    returnType: Option<JsonType>)

  datatype JsonProperty = JsonProperty(name: string, optional: bool, readonly: bool, propType: Option<JsonType>)

  datatype JsonParameter = JsonParameter(name: string, optional: bool, paramType: Option<JsonType>)

  // ---------------------------------------------------------------------------------------
  // String literals

  /** The escape sequence a character needs inside a double-quoted literal, or the character
      itself. */
  function EscapeChar(c: char): string
  {
    if c == '"' then "\\\""
    else if c == '\\' then "\\\\"
    else if c == '\n' then "\\n"
    else if c == '\r' then "\\r"
    else if c == '\t' then "\\t"
    else [c]
  }

  function Escape(s: string): string
  {
    if s == [] then [] else EscapeChar(s[0]) + Escape(s[1..])
  }

  /** `JSON.stringify(s)` for a string: double quotes around it, with `"`, `\` and the line
      breaks and tab escaped. */
  function Quote(s: string): (r: string)
    ensures |r| >= 2 && r[0] == '"' && r[|r| - 1] == '"'
  {
    "\"" + Escape(s) + "\""
  }

  /** Reads the body of a double-quoted TypeScript string literal up to its closing quote, which
      must end the text. A backslash escapes `"`, `\`, `n`, `r` and `t`; a raw line break, an
      unterminated body or any other escape is not read. */
  function ReadBody(s: string): Option<string>
  {
    if s == [] then None
    else if s[0] == '"' then (if |s| == 1 then Some("") else None)
    else if s[0] == '\n' || s[0] == '\r' then None
    else if s[0] == '\\' then
      if |s| < 2 then None
      else
        var c := s[1];
        var e := if c == '"' then Some('"') else if c == '\\' then Some('\\')
                 else if c == 'n' then Some('\n') else if c == 'r' then Some('\r')
                 else if c == 't' then Some('\t') else None;
        match e
        case None => None
        case Some(d) =>
          match ReadBody(s[2..])
          case None => None
          case Some(rest) => Some([d] + rest)
    else
      match ReadBody(s[1..])
      case None => None
      case Some(rest) => Some([s[0]] + rest)
  }

  /** The value a double-quoted literal denotes, if the text is one. */
  function ReadLiteral(s: string): Option<string>
  {
    if s != [] && s[0] == '"' then ReadBody(s[1..]) else None
  }

  lemma {:induction false} ReadBodyEscaped(s: string)
    ensures ReadBody(Escape(s) + "\"") == Some(s)
  {
    if s == [] {
    } else {
      ReadBodyEscaped(s[1..]);
      var e := EscapeChar(s[0]);
      var t := Escape(s[1..]) + "\"";
      assert Escape(s) + "\"" == e + t;
      if |e| == 2 {
        assert (e + t)[2..] == t;
        assert (e + t)[0] == '\\' && (e + t)[1] == e[1];
        assert ReadBody(e + t) == Some([s[0]] + s[1..]);
      } else {
        assert (e + t)[1..] == t;
        assert e == [s[0]];
        assert ReadBody(e + t) == Some([s[0]] + s[1..]);
      }
      assert [s[0]] + s[1..] == s;
    }
  }

  /** Every string survives quoting: the literal `Quote` writes reads back as the string. */
  lemma QuoteRoundTrip(s: string)
    ensures ReadLiteral(Quote(s)) == Some(s)
  {
    ReadBodyEscaped(s);
    assert Quote(s)[1..] == Escape(s) + "\"";
  }

  /** The literal branch as written: only `"` is escaped. */
  function LiteralAsWritten(s: string): (r: string)
    ensures |r| >= 2 && r[0] == '"' && r[|r| - 1] == '"'
  {
    "\"" + ReplaceChar(s, '"', "\\\"") + "\""
  }

  /** A string that ends in a backslash does not survive: its closing quote is read as an
      escaped quote, and the literal is left unterminated. */
  lemma BackslashBreaksLiteral(s: string)
    requires s == "a\\"
    ensures LiteralAsWritten(s) == "\"a\\\""
    ensures ReadLiteral(LiteralAsWritten(s)) == None
  {
    assert ReplaceChar(s, '"', "\\\"") == s by {
      assert ReplaceChar(s[1..], '"', "\\\"") == "\\";
    }
    assert LiteralAsWritten(s)[1..] == "a\\\"";
    assert ReadBody("\\\"") == None by {
      assert ReadBody("\\\""[2..]) == None;
    }
    assert ReadBody("a\\\""[1..]) == None;
  }

  // ---------------------------------------------------------------------------------------
  // The renderer

  /** The renderer as the source writes it, or with its two corrections: string literals
      quoted as `JSON.stringify` quotes them, and union, intersection and function elements of
      an array parenthesised. */
  datatype Dialect = AsWritten | Corrected

  /** The text of a string literal. */
  function LiteralText(s: string, d: Dialect): (r: string)
    ensures |r| >= 2 && r[0] == '"' && r[|r| - 1] == '"'
  {
    if d == AsWritten then LiteralAsWritten(s) else Quote(s)
  }

  /** An array element needs parentheses when `[]` would otherwise bind to its last part. */
  predicate NeedsParentheses(t: Option<JsonType>)
  {
    t.Some? && (t.value.kind == "union" || t.value.kind == "intersection" || t.value.kind == "function")
  }

  /** `convertJsonTypeToTypeScript(typeJson)`; a missing description renders as `any`. */
  function Convert(t: Option<JsonType>, d: Dialect): string
    decreases t, 2
  {
    match t
    case None => "any"
    case Some(x) => ConvertType(x, d)
  }

  function ConvertType(t: JsonType, d: Dialect): string
    decreases t, 1
  {
    if t.kind == "object" then
      if |t.properties| > 0 then
        "{\n  " + Join(PropertyTexts(t.properties, d), ";\n  ") + ";\n}"
      else if t.typeName != "" then t.typeName
      else "{}"
    else if t.kind == "array" then
      var e := Convert(t.elementType, d);
      (if d == Corrected && NeedsParentheses(t.elementType) then "(" + e + ")" else e) + "[]"
    else if t.kind == "union" then
      if |t.types| > 0 then Join(UnionParts(t.types, d), " | ") else "any"
    else if t.kind == "intersection" then
      if |t.types| > 0 then Join(IntersectionParts(t.types, d), " & ") else "any"
    else if t.kind == "literal" then
      match t.value
      case Str(s) => LiteralText(s, d)
      case Other(text) => text
    else if t.kind == "function" then
      var r := Convert(t.returnType, d);
      "(" + Join(ParameterTexts(t.parameters, d), ", ") + ") => " + (if r == "" then "void" else r)
    else if t.typeName != "" then t.typeName
    else "any"
  }

  /** Union members: an object or intersection member is parenthesised. */
  function UnionParts(ts: seq<JsonType>, d: Dialect): (r: seq<string>)
    ensures |r| == |ts|
    decreases ts, 0
  {
    if ts == [] then []
    else
      var s := ConvertType(ts[0], d);
      [if ts[0].kind == "object" || ts[0].kind == "intersection" then "(" + s + ")" else s]
      + UnionParts(ts[1..], d)
  }

  /** Intersection members: a union member is parenthesised. */
  function IntersectionParts(ts: seq<JsonType>, d: Dialect): (r: seq<string>)
    ensures |r| == |ts|
    decreases ts, 0
  {
    if ts == [] then []
    else
      var s := ConvertType(ts[0], d);
      [if ts[0].kind == "union" then "(" + s + ")" else s] + IntersectionParts(ts[1..], d)
  }

  /** `readonly? "name"?: T` for each property, the name quoted as `JSON.stringify` quotes it. */
  function PropertyTexts(ps: seq<JsonProperty>, d: Dialect): (r: seq<string>)
    ensures |r| == |ps|
    decreases ps, 0
  {
    if ps == [] then []
    else
      var p := ps[0];
      [(if p.readonly then "readonly " else "") + Quote(p.name) + (if p.optional then "?" else "")
       + ": " + Convert(p.propType, d)]
      + PropertyTexts(ps[1..], d)
  }

  /** `name?: T` for each parameter. */
  function ParameterTexts(ps: seq<JsonParameter>, d: Dialect): (r: seq<string>)
    ensures |r| == |ps|
    decreases ps, 0
  {
    if ps == [] then []
    else
      var p := ps[0];
      [p.name + (if p.optional then "?" else "") + ": " + Convert(p.paramType, d)] + ParameterTexts(ps[1..], d)
  }

  // ---------------------------------------------------------------------------------------
  // Properties of the renderer

  /** The correction changes nothing for a literal with no backslash, line break or tab. */
  lemma {:induction false} LiteralAgrees(s: string)
    requires forall i :: 0 <= i < |s| ==> s[i] != '\\' && s[i] != '\n' && s[i] != '\r' && s[i] != '\t'
    ensures LiteralAsWritten(s) == Quote(s)
  {
    EscapeAgrees(s);
  }

  lemma {:induction false} EscapeAgrees(s: string)
    requires forall i :: 0 <= i < |s| ==> s[i] != '\\' && s[i] != '\n' && s[i] != '\r' && s[i] != '\t'
    ensures ReplaceChar(s, '"', "\\\"") == Escape(s)
  {
    if s != [] {
      EscapeAgrees(s[1..]);
    }
  }

  /** Each union member is parenthesised exactly when it describes an object or an
      intersection. */
  lemma {:induction false} UnionPartAt(ts: seq<JsonType>, d: Dialect, i: nat)
    requires i < |ts|
    ensures UnionParts(ts, d)[i]
            == if ts[i].kind == "object" || ts[i].kind == "intersection"
               then "(" + ConvertType(ts[i], d) + ")" else ConvertType(ts[i], d)
  {
    if i > 0 {
      UnionPartAt(ts[1..], d, i - 1);
    }
  }

  /** Each intersection member is parenthesised exactly when it describes a union. */
  lemma {:induction false} IntersectionPartAt(ts: seq<JsonType>, d: Dialect, i: nat)
    requires i < |ts|
    ensures IntersectionParts(ts, d)[i]
            == if ts[i].kind == "union" then "(" + ConvertType(ts[i], d) + ")" else ConvertType(ts[i], d)
  {
    if i > 0 {
      IntersectionPartAt(ts[1..], d, i - 1);
    }
  }

  /** The text of the i-th property: its name quoted, `readonly ` and `?` as flagged. */
  lemma {:induction false} PropertyTextAt(ps: seq<JsonProperty>, d: Dialect, i: nat)
    requires i < |ps|
    ensures PropertyTexts(ps, d)[i]
            == (if ps[i].readonly then "readonly " else "") + Quote(ps[i].name)
               + (if ps[i].optional then "?" else "") + ": " + Convert(ps[i].propType, d)
  {
    if i > 0 {
      PropertyTextAt(ps[1..], d, i - 1);
    }
  }

  /** The text of the i-th parameter. */
  lemma {:induction false} ParameterTextAt(ps: seq<JsonParameter>, d: Dialect, i: nat)
    requires i < |ps|
    ensures ParameterTexts(ps, d)[i] == ps[i].name + (if ps[i].optional then "?" else "") + ": " + Convert(ps[i].paramType, d)
  {
    if i > 0 {
      ParameterTextAt(ps[1..], d, i - 1);
    }
  }

  /** Lines of an object body: each part on a line of its own, indented by two spaces and ended
      by `;`. */
  function BodyLines(parts: seq<string>): string
  {
    if parts == [] then "" else "  " + parts[0] + ";\n" + BodyLines(parts[1..])
  }

  lemma {:induction false} JoinedBody(parts: seq<string>)
    requires |parts| > 0
    ensures "  " + Join(parts, ";\n  ") + ";\n" == BodyLines(parts)
  {
    if |parts| > 1 {
      JoinedBody(parts[1..]);
      JoinStep(parts, ";\n  ");
    }
  }

  lemma JoinStep(parts: seq<string>, sep: string)
    requires |parts| > 1
    ensures Join(parts, sep) == parts[0] + sep + Join(parts[1..], sep)
  {
  }

  /** An object with properties is laid out as `{`, one line per property, and `}`. */
  lemma ObjectLayout(t: JsonType, d: Dialect)
    requires t.kind == "object" && |t.properties| > 0
    ensures ConvertType(t, d) == "{\n" + BodyLines(PropertyTexts(t.properties, d)) + "}"
  {
    JoinedBody(PropertyTexts(t.properties, d));
  }

  /** A description on which the corrections have nothing to change: its string literals hold
      no backslash, line break or tab, and no array holds a union, intersection or function. */
  predicate Plain(t: JsonType)
    decreases t
  {
    (t.kind == "literal" && t.value.Str? ==>
       forall i :: 0 <= i < |t.value.s| ==> t.value.s[i] != '\\' && t.value.s[i] != '\n' && t.value.s[i] != '\r' && t.value.s[i] != '\t')
    && (t.kind == "array" ==> !NeedsParentheses(t.elementType))
    && (t.elementType.Some? ==> Plain(t.elementType.value))
    && (t.returnType.Some? ==> Plain(t.returnType.value))
    && (forall i :: 0 <= i < |t.types| ==> Plain(t.types[i]))
    && (forall i :: 0 <= i < |t.properties| ==> t.properties[i].propType.Some? ==> Plain(t.properties[i].propType.value))
    && (forall i :: 0 <= i < |t.parameters| ==> t.parameters[i].paramType.Some? ==> Plain(t.parameters[i].paramType.value))
  }

  /** The corrected renderer extends the source's: on every description the corrections leave
      alone, both print the same text. */
  lemma {:induction false} DialectsAgree(t: JsonType)
    requires Plain(t)
    ensures ConvertType(t, AsWritten) == ConvertType(t, Corrected)
    decreases t, 1
  {
    if t.kind == "object" {
      PropertiesAgree(t.properties);
    } else if t.kind == "array" {
      OptionAgrees(t.elementType);
    } else if t.kind == "union" || t.kind == "intersection" {
      PartsAgree(t.types);
    } else if t.kind == "literal" {
      if t.value.Str? {
        LiteralAgrees(t.value.s);
      }
    } else if t.kind == "function" {
      ParametersAgree(t.parameters);
      OptionAgrees(t.returnType);
    }
  }

  lemma {:induction false} OptionAgrees(t: Option<JsonType>)
    requires t.Some? ==> Plain(t.value)
    ensures Convert(t, AsWritten) == Convert(t, Corrected)
    decreases t, 2
  {
    if t.Some? {
      DialectsAgree(t.value);
    }
  }

  lemma {:induction false} PartsAgree(ts: seq<JsonType>)
    requires forall i :: 0 <= i < |ts| ==> Plain(ts[i])
    ensures UnionParts(ts, AsWritten) == UnionParts(ts, Corrected)
    ensures IntersectionParts(ts, AsWritten) == IntersectionParts(ts, Corrected)
    decreases ts, 0
  {
    if ts != [] {
      DialectsAgree(ts[0]);
      PartsAgree(ts[1..]);
    }
  }

  lemma {:induction false} PropertiesAgree(ps: seq<JsonProperty>)
    requires forall i :: 0 <= i < |ps| ==> ps[i].propType.Some? ==> Plain(ps[i].propType.value)
    ensures PropertyTexts(ps, AsWritten) == PropertyTexts(ps, Corrected)
    decreases ps, 0
  {
    if ps != [] {
      OptionAgrees(ps[0].propType);
      PropertiesAgree(ps[1..]);
    }
  }

  lemma {:induction false} ParametersAgree(ps: seq<JsonParameter>)
    requires forall i :: 0 <= i < |ps| ==> ps[i].paramType.Some? ==> Plain(ps[i].paramType.value)
    ensures ParameterTexts(ps, AsWritten) == ParameterTexts(ps, Corrected)
    decreases ps, 0
  {
    if ps != [] {
      OptionAgrees(ps[0].paramType);
      ParametersAgree(ps[1..]);
    }
  }

  /** A string literal as the source renders it: the value `a\` becomes `"a\"`, which does not
      read back as a literal. */
  lemma LiteralBreaksRenderer(t: JsonType)
    requires t.kind == "literal" && t.value == Str("a\\")
    ensures ConvertType(t, AsWritten) == "\"a\\\""
    ensures ReadLiteral(ConvertType(t, AsWritten)) == None
  {
    BackslashBreaksLiteral("a\\");
  }

  /** The corrected renderer's string literals read back as their values. */
  lemma LiteralReadsBack(t: JsonType)
    requires t.kind == "literal" && t.value.Str?
    ensures ReadLiteral(ConvertType(t, Corrected)) == Some(t.value.s)
  {
    QuoteRoundTrip(t.value.s);
  }

  /** The descriptions of `(string | number)[]` and of `string | number[]`. */
  function ArrayOfUnion(a: JsonType, b: JsonType): JsonType
  {
    var none := JsonType("", "", [], None, [], Other("undefined"), [], None);
    none.(kind := "array", elementType := Some(none.(kind := "union", types := [a, b])))
  }

  function UnionWithArray(a: JsonType, b: JsonType): JsonType
  {
    var none := JsonType("", "", [], None, [], Other("undefined"), [], None);
    none.(kind := "union", types := [a, none.(kind := "array", elementType := Some(b))])
  }

  /** The rendered texts of the two descriptions under dialect `d`. */
  lemma ArrayOfUnionText(a: JsonType, b: JsonType, d: Dialect)
    requires a.kind == "string" && a.typeName == "string"
    requires b.kind == "number" && b.typeName == "number"
    ensures ConvertType(ArrayOfUnion(a, b), d)
            == (if d == Corrected then "(string | number)[]" else "string | number[]")
  {
    var t := ArrayOfUnion(a, b);
    assert t.kind == "array" && t.elementType.Some?;
    var u := t.elementType.value;
    assert u.kind == "union" && u.types == [a, b];
    ArrayOfPairText(t, u, a, b, d);
  }

  lemma ArrayOfPairText(t: JsonType, u: JsonType, a: JsonType, b: JsonType, d: Dialect)
    requires t.kind == "array" && t.elementType == Some(u)
    requires u.kind == "union" && u.types == [a, b]
    requires a.kind == "string" && a.typeName == "string"
    requires b.kind == "number" && b.typeName == "number"
    ensures ConvertType(t, d) == (if d == Corrected then "(string | number)[]" else "string | number[]")
  {
    StringOrNumberText(u, a, b, d);
    ArrayText(t, u, d);
  }

  /** The union of `string` and `number` prints as `string | number`. */
  lemma StringOrNumberText(u: JsonType, a: JsonType, b: JsonType, d: Dialect)
    requires u.kind == "union" && u.types == [a, b]
    requires a.kind == "string" && a.typeName == "string"
    requires b.kind == "number" && b.typeName == "number"
    ensures ConvertType(u, d) == "string | number"
  {
    LeafText(a, d);
    LeafText(b, d);
    UnionPairText(u, a, b, d, "string", "number");
  }

  lemma UnionWithArrayText(a: JsonType, b: JsonType, d: Dialect)
    requires a.kind == "string" && a.typeName == "string"
    requires b.kind == "number" && b.typeName == "number"
    ensures ConvertType(UnionWithArray(a, b), d) == "string | number[]"
  {
    var t := UnionWithArray(a, b);
    var arr := t.types[1];
    assert arr.kind == "array" && arr.elementType == Some(b);
    LeafText(a, d);
    LeafText(b, d);
    assert !NeedsParentheses(Some(b));
    ArrayText(arr, b, d);
    assert t.kind == "union" && t.types == [a, arr];
    UnionPairText(t, a, arr, d, "string", "number[]");
  }

  /** An array prints as its element's text followed by `[]`, parenthesised only when
      corrected and needed. */
  lemma ArrayText(t: JsonType, e: JsonType, d: Dialect)
    requires t.kind == "array" && t.elementType == Some(e)
    ensures ConvertType(t, d)
            == (if d == Corrected && NeedsParentheses(Some(e)) then "(" + ConvertType(e, d) + ")"
                else ConvertType(e, d)) + "[]"
  {
  }

  /** A named type of the primitive kinds prints as its name. */
  lemma LeafText(t: JsonType, d: Dialect)
    requires t.kind in {"string", "number"} && t.typeName != ""
    ensures ConvertType(t, d) == t.typeName
  {
  }

  /** A two-member union of members that are neither objects nor intersections. */
  lemma UnionPairText(t: JsonType, a: JsonType, b: JsonType, d: Dialect, x: string, y: string)
    requires t.kind == "union" && t.types == [a, b]
    requires a.kind != "object" && a.kind != "intersection" && ConvertType(a, d) == x
    requires b.kind != "object" && b.kind != "intersection" && ConvertType(b, d) == y
    ensures ConvertType(t, d) == x + " | " + y
  {
    PairText(a, b, d, x, y);
  }

  /** A union of two members that are neither objects nor intersections is their texts joined
      by ` | `. */
  lemma PairText(a: JsonType, b: JsonType, d: Dialect, x: string, y: string)
    requires a.kind != "object" && a.kind != "intersection" && ConvertType(a, d) == x
    requires b.kind != "object" && b.kind != "intersection" && ConvertType(b, d) == y
    ensures UnionParts([a, b], d) == [x, y]
    ensures Join([x, y], " | ") == x + " | " + y
  {
    UnionPartAt([a, b], d, 0);
    UnionPartAt([a, b], d, 1);
  }

  /** As written, arrays are not parenthesised: an array of `A | B` and the union of `A` with
      an array of `B` print the same text. */
  lemma ArrayOfUnionIsAmbiguous(a: JsonType, b: JsonType)
    requires a.kind == "string" && a.typeName == "string"
    requires b.kind == "number" && b.typeName == "number"
    ensures ArrayOfUnion(a, b) != UnionWithArray(a, b)
    ensures ConvertType(ArrayOfUnion(a, b), AsWritten) == ConvertType(UnionWithArray(a, b), AsWritten)
  {
    ArrayOfUnionText(a, b, AsWritten);
    UnionWithArrayText(a, b, AsWritten);
  }

  /** Corrected, the two descriptions print different texts, and the array of a union prints
      with the union parenthesised. */
  lemma ArrayOfUnionIsParenthesised(a: JsonType, b: JsonType)
    requires a.kind == "string" && a.typeName == "string"
    requires b.kind == "number" && b.typeName == "number"
    ensures ConvertType(ArrayOfUnion(a, b), Corrected) == "(string | number)[]"
    ensures ConvertType(ArrayOfUnion(a, b), Corrected) != ConvertType(UnionWithArray(a, b), Corrected)
  {
    ArrayOfUnionText(a, b, Corrected);
    UnionWithArrayText(a, b, Corrected);
  }
}
