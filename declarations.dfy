/** `getSyntaxKindDeclaration` and `sanitizeString`: the declaration prefix put in front of a
    printed type, and the normal form two printed declarations are compared in. */
module Declarations {
  import opened Common
  import opened TsApi

  /** The seven declaration forms the prefix can take. */
  datatype Form = ClassForm | InterfaceForm | TypeForm | FunctionForm | LetForm | VarForm | ConstForm

  /** The form the source's switch chooses for a syntax kind; every kind it does not list falls
      to `const`. */
  function FormOf(kind: SyntaxKind): Form
  {
    match kind
    case ClassDeclaration | NewExpression => ClassForm
    case ExpressionWithTypeArguments | InterfaceDeclaration | QualifiedName => InterfaceForm
    case ArrayType | ConstructorType | ConstructSignature | EnumDeclaration | FunctionType
      | IndexedAccessType | IndexSignature | IntersectionType | MappedType | PropertySignature
      | ThisType | TupleType | TypeAliasDeclaration | TypeAssertionExpression | TypeLiteral
      | TypeOperator | TypePredicate | TypeQuery | TypeReference | UnionType => TypeForm
    case FunctionDeclaration | FunctionKeyword | MethodDeclaration | MethodSignature
      | GetAccessor | SetAccessor | Constructor => FunctionForm
    case LetKeyword => LetForm
    case VarKeyword => VarForm
    case _ => ConstForm
  }

  /** The keyword a form opens with, followed by its space. */
  function Keyword(f: Form): string
  {
    match f
    case ClassForm => "class "
    case InterfaceForm => "interface "
    case TypeForm => "type "
    case FunctionForm => "function "
    case LetForm => "let "
    case VarForm => "var "
    case ConstForm => "const "
  }

  /** What follows the type name. */
  function Tail(f: Form): string
  {
    match f
    case ClassForm => " "
    case InterfaceForm => " "
    case TypeForm => " = "
    case FunctionForm => ""
    case LetForm => ": "
    case VarForm => ": "
    case ConstForm => ": "
  }

  /** `getSyntaxKindDeclaration(kind, typeName)`. */
  function SyntaxKindDeclaration(kind: SyntaxKind, typeName: string): (r: string)
    ensures StartsWith(r, Keyword(FormOf(kind)))
    ensures |r| == |Keyword(FormOf(kind))| + |typeName| + |Tail(FormOf(kind))|
  {
    var f := FormOf(kind);
    Keyword(f) + typeName + Tail(f)
  }

  const Forms: seq<Form> := [ClassForm, InterfaceForm, TypeForm, FunctionForm, LetForm, VarForm, ConstForm]

  /** Reads a declaration prefix back: the first form whose keyword starts the text and whose
      tail ends it, and the type name between the two. */
  function ParseDeclaration(s: string): (r: Option<(Form, string)>)
    ensures r.Some? ==> Keyword(r.value.0) + r.value.1 + Tail(r.value.0) == s
  {
    ParseWith(s, Forms)
  }

  function ParseWith(s: string, forms: seq<Form>): (r: Option<(Form, string)>)
    ensures r.Some? ==> r.value.0 in forms && Keyword(r.value.0) + r.value.1 + Tail(r.value.0) == s
  {
    if forms == [] then None
    else
      var k := Keyword(forms[0]);
      var t := Tail(forms[0]);
      if |k| + |t| <= |s| && s[..|k|] == k && s[|s| - |t|..] == t then
        assert s == s[..|k|] + s[|k|..|s| - |t|] + s[|s| - |t|..];
        Some((forms[0], s[|k|..|s| - |t|]))
      else ParseWith(s, forms[1..])
  }

  /** No keyword starts with another one, so the keyword of a declaration fixes its form. */
  lemma KeywordsDistinct(f: Form, g: Form, s: string)
    requires StartsWith(s, Keyword(f)) && StartsWith(s, Keyword(g))
    ensures f == g
  {
    assert Keyword(f)[0] == s[0] == Keyword(g)[0];
    assert Keyword(f)[1] == s[1] == Keyword(g)[1];
  }

  /** Reading back skips every form before the right one, whose keyword does not match. */
  lemma {:induction false} ParseWithFinds(f: Form, name: string, forms: seq<Form>)
    requires f in forms
    ensures ParseWith(Keyword(f) + name + Tail(f), forms) == Some((f, name))
  {
    if forms[0] == f {
      ParseWithFirst(f, name, forms);
    } else {
      ParseWithSkips(f, name, forms);
      ParseWithFinds(f, name, forms[1..]);
    }
  }

  lemma ParseWithFirst(f: Form, name: string, forms: seq<Form>)
    requires forms != [] && forms[0] == f
    ensures ParseWith(Keyword(f) + name + Tail(f), forms) == Some((f, name))
  {
    var s := Keyword(f) + name + Tail(f);
    var k := Keyword(f);
    var t := Tail(f);
    assert s[..|k|] == k;
    assert s[|s| - |t|..] == t;
    assert s[|k|..|s| - |t|] == name;
  }

  lemma ParseWithSkips(f: Form, name: string, forms: seq<Form>)
    requires forms != [] && forms[0] != f
    ensures ParseWith(Keyword(f) + name + Tail(f), forms) == ParseWith(Keyword(f) + name + Tail(f), forms[1..])
  {
    var s := Keyword(f) + name + Tail(f);
    var k := Keyword(forms[0]);
    if |k| <= |s| && s[..|k|] == k {
      assert s[..|Keyword(f)|] == Keyword(f);
      KeywordsDistinct(forms[0], f, s);
      assert false;
    }
  }

  /** The declaration prefix loses nothing: its form and its type name can be read back from it,
      whatever the name. So two kinds with different forms, or two different names, never give
      the same prefix. */
  lemma DeclarationRoundTrip(kind: SyntaxKind, typeName: string)
    ensures ParseDeclaration(SyntaxKindDeclaration(kind, typeName)) == Some((FormOf(kind), typeName))
  {
    ParseWithFinds(FormOf(kind), typeName, Forms);
  }

  // ---------------------------------------------------------------------------------------
  // sanitizeString

  /** Length of the run of lower-case letters `s` starts with. */
  function LowerRun(s: string): (k: nat)
    ensures k <= |s|
    ensures forall i :: 0 <= i < k ==> IsLowerLetter(s[i])
    ensures k < |s| ==> !IsLowerLetter(s[k])
  {
    if s != [] && IsLowerLetter(s[0]) then 1 + LowerRun(s[1..]) else 0
  }

  /** `s.replace(/^[a-z]+\s/, '')`: one leading lower-case word and the white-space character
      after it are removed. The `+` is greedy and a letter is not white space, so only the
      longest run can be followed by the white space. */
  function DropLeadingWord(s: string): string
  {
    var k := LowerRun(s);
    if 1 <= k < |s| && IsWhitespace(s[k]) then s[k + 1..] else s
  }

  /** `s.replace(/\s/g, '')`. */
  function RemoveWhitespace(s: string): string
  {
    if s == [] then [] else (if IsWhitespace(s[0]) then [] else [s[0]]) + RemoveWhitespace(s[1..])
  }

  /** The three global removals that follow the leading word. */
  function Clean(s: string): string
  {
    ReplaceChar(ReplaceChar(RemoveWhitespace(s), '\n', ""), ';', "")
  }

  /** `sanitizeString(str)`. */
  function Sanitize(s: string): string
  {
    Clean(DropLeadingWord(s))
  }

  lemma {:induction false} ReplaceCharRemoves(s: string, c: char)
    ensures c !in ReplaceChar(s, c, "")
    ensures forall d :: d in ReplaceChar(s, c, "") ==> d in s
  {
    if s != [] {
      ReplaceCharRemoves(s[1..], c);
    }
  }

  lemma {:induction false} ReplaceCharAbsent(s: string, c: char)
    requires c !in s
    ensures ReplaceChar(s, c, "") == s
  {
    if s != [] {
      ReplaceCharAbsent(s[1..], c);
    }
  }

  /** The removal leaves no white space and adds nothing. */
  lemma {:induction false} RemoveWhitespaceDrops(s: string)
    ensures forall c :: c in RemoveWhitespace(s) ==> c in s && !IsWhitespace(c)
  {
    if s != [] {
      RemoveWhitespaceDrops(s[1..]);
    }
  }

  lemma {:induction false} RemoveWhitespaceAppend(a: string, b: string)
    ensures RemoveWhitespace(a + b) == RemoveWhitespace(a) + RemoveWhitespace(b)
  {
    if a != [] {
      var head := if IsWhitespace(a[0]) then [] else [a[0]];
      assert (a + b)[0] == a[0];
      assert (a + b)[1..] == a[1..] + b;
      assert RemoveWhitespace(a + b) == head + RemoveWhitespace(a[1..] + b);
      RemoveWhitespaceAppend(a[1..], b);
      assert RemoveWhitespace(a) == head + RemoveWhitespace(a[1..]);
    } else {
      assert a + b == b;
    }
  }

  lemma {:induction false} RemoveWhitespaceKeeps(s: string)
    requires forall c :: c in s ==> !IsWhitespace(c)
    ensures RemoveWhitespace(s) == s
  {
    if s != [] {
      assert s[0] in s;
      assert forall c :: c in s[1..] ==> c in s;
      RemoveWhitespaceKeeps(s[1..]);
    }
  }

  /** `Clean` works character by character, so it distributes over concatenation. */
  lemma CleanAppend(a: string, b: string)
    ensures Clean(a + b) == Clean(a) + Clean(b)
  {
    RemoveWhitespaceAppend(a, b);
    ReplaceCharAppend(RemoveWhitespace(a), RemoveWhitespace(b), '\n', "");
    ReplaceCharAppend(ReplaceChar(RemoveWhitespace(a), '\n', ""), ReplaceChar(RemoveWhitespace(b), '\n', ""), ';', "");
  }

  /** A cleaned string holds no white space and no `;`, and nothing that was not in its input. */
  lemma CleanIsClean(s: string)
    ensures forall c :: c in Clean(s) ==> c in s && !IsWhitespace(c) && c != ';'
  {
    var w := RemoveWhitespace(s);
    RemoveWhitespaceDrops(s);
    ReplaceCharRemoves(w, '\n');
    ReplaceCharRemoves(ReplaceChar(w, '\n', ""), ';');
  }

  /** A string with no white space and no `;` is its own cleaned form. */
  lemma CleanKeeps(s: string)
    requires forall c :: c in s ==> !IsWhitespace(c) && c != ';'
    ensures Clean(s) == s
  {
    RemoveWhitespaceKeeps(s);
    assert IsWhitespace('\n');
    ReplaceCharAbsent(s, '\n');
    ReplaceCharAbsent(s, ';');
  }

  /** The output of `sanitizeString` holds no white space and no `;`. */
  lemma SanitizeOutput(s: string)
    ensures forall c :: c in Sanitize(s) ==> !IsWhitespace(c) && c != ';'
  {
    CleanIsClean(DropLeadingWord(s));
  }

  /** At most one leading word goes: the output is the cleaned input, or the cleaned input after
      a lower-case word and one white-space character; every other letter survives. */
  lemma SanitizeDropsOneWord(s: string)
    ensures Sanitize(s) == Clean(s)
            || (exists k :: 1 <= k < |s| && IsWhitespace(s[k]) && Sanitize(s) == Clean(s[k + 1..])
                             && (forall i :: 0 <= i < k ==> IsLowerLetter(s[i])))
  {
  }

  /** Sanitizing twice is sanitizing once: the output has no white space left for a leading word
      to end in, and nothing left to clean. */
  lemma SanitizeIdempotent(s: string)
    ensures Sanitize(Sanitize(s)) == Sanitize(s)
  {
    var r := Sanitize(s);
    SanitizeOutput(s);
    assert DropLeadingWord(r) == r by {
      var k := LowerRun(r);
      if 1 <= k < |r| {
        assert r[k] in r;
      }
    }
    CleanKeeps(r);
  }

  /** A sanitized declaration prefix is the sanitized type name followed by the tail's mark: the
      keyword goes as the leading word, `=` of a type alias and `:` of a variable remain. */
  lemma SanitizeDeclaration(kind: SyntaxKind, typeName: string)
    ensures Sanitize(SyntaxKindDeclaration(kind, typeName))
            == Clean(typeName) + Clean(Tail(FormOf(kind)))
  {
    var f := FormOf(kind);
    DropKeyword(f, typeName + Tail(f));
    assert Keyword(f) + typeName + Tail(f) == Keyword(f) + (typeName + Tail(f));
    CleanAppend(typeName, Tail(f));
  }

  /** Every keyword is a lower-case word followed by one space. */
  lemma KeywordIsWord(f: Form)
    ensures var k := Keyword(f);
            && |k| >= 2 && k[|k| - 1] == ' '
            && forall i :: 0 <= i < |k| - 1 ==> IsLowerLetter(k[i])
  {
  }

  /** The leading word a sanitizer drops from a declaration prefix is its keyword. */
  lemma DropKeyword(f: Form, rest: string)
    ensures DropLeadingWord(Keyword(f) + rest) == rest
  {
    var k := Keyword(f);
    var s := k + rest;
    KeywordIsWord(f);
    assert s[|k| - 1] == ' ';
    assert forall i :: 0 <= i < |k| - 1 ==> s[i] == k[i];
    LowerRunOfWord(s, |k| - 1);
    assert IsWhitespace(s[|k| - 1]);
    assert s[|k|..] == rest;
  }

  lemma {:induction false} LowerRunOfWord(s: string, k: nat)
    requires k < |s| && !IsLowerLetter(s[k])
    requires forall i :: 0 <= i < k ==> IsLowerLetter(s[i])
    ensures LowerRun(s) == k
  {
    if k > 0 {
      assert IsLowerLetter(s[0]);
      LowerRunOfWord(s[1..], k - 1);
    }
  }
}
