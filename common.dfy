/** Values, oracles and string operations shared by the persistence mapper and the
    controller models: PHP's dynamically typed values, the exceptions the core throws,
    the runtime's class registry (standing for class_exists and the reflection service)
    and the few PHP string functions the core relies on. */
module Common {

  datatype Option<+T> = None | Some(value: T)

  datatype Result<+T, +E> = Success(value: T) | Failure(error: E)

  datatype Outcome<+E> = Pass | Fail(error: E)

  /** A PHP value, as far as the core distinguishes values. */
  datatype Mixed =
    | Null
    | Bool(b: bool)
    | Int(i: int)
    | Str(s: string)
    | Arr(items: seq<Mixed>)
    | Obj(className: string)

  /** PHP's `(boolean)` cast. */
  function Truthy(m: Mixed): (r: bool)
    ensures m.Null? ==> !r
    ensures m.Obj? ==> r
    ensures m.Str? ==> (r <==> m.s != "" && m.s != "0")
  {
    match m
    case Null => false
    case Bool(b) => b
    case Int(i) => i != 0
    case Str(s) => s != "" && s != "0"
    case Arr(items) => items != []
    case Obj(_) => true
  }

  predicate IsDigit(c: char) { '0' <= c <= '9' }

  /** PHP's is_numeric, restricted to integers and strings of decimal digits with an
      optional sign. */
  predicate IsNumeric(m: Mixed) {
    match m
    case Int(_) => true
    case Str(s) =>
      var digits := if s != [] && (s[0] == '-' || s[0] == '+') then s[1..] else s;
      digits != [] && forall i :: 0 <= i < |digits| ==> IsDigit(digits[i])
    case _ => false
  }

  /** The exceptions the core throws, with the codes the source gives them. */
  datatype Exception =
    | InvalidArgument(code: nat)
    | InvalidArgumentValue(code: nat)
    | NoSuchAction(actionMethodName: string, code: nat)
    | NoSuchArgument(argumentName: string, code: nat)
    | UnsupportedRequestType(code: nat)
    | InvalidClass(className: string)
    | UnsupportedRelation

  /** The runtime the core asks by reflection: which classes exist, which of them have a
      class schema (entities and value objects), and which class is a subtype of which. */
  datatype Environment = Environment(
    classes: set<string>,
    schemas: set<string>,
    subtypes: set<(string, string)>)
  {
    predicate ClassExists(name: string) { name in classes }

    predicate HasClassSchema(name: string) { name in schemas }

    /** PHP's `instanceof` for a value and a class name. */
    predicate InstanceOf(m: Mixed, name: string) {
      m.Obj? && (m.className == name || (m.className, name) in subtypes)
    }
  }

  /** Concatenation is associative; stated for the solver, which would otherwise compare
      the sequences element by element. */
  lemma AppendAssoc<T>(a: seq<T>, b: seq<T>, c: seq<T>)
    ensures (a + b) + c == a + (b + c)
  {
  }

  // ---------------------------------------------------------------------------------
  // Strings

  predicate IsUpper(c: char) { 'A' <= c <= 'Z' }

  predicate IsLower(c: char) { 'a' <= c <= 'z' }

  function LowerChar(c: char): char {
    if IsUpper(c) then (c as int + 32) as char else c
  }

  function UpperChar(c: char): char {
    if IsLower(c) then (c as int - 32) as char else c
  }

  /** PHP's strtolower on ASCII letters. */
  function Lower(s: string): (r: string)
    ensures |r| == |s|
    ensures forall i :: 0 <= i < |s| ==> r[i] == LowerChar(s[i])
  {
    if s == [] then [] else [LowerChar(s[0])] + Lower(s[1..])
  }

  /** Lower-casing leaves no upper-case letter, introduces no character that is not a
      lower-case letter, and is idempotent. */
  lemma LowerIsLower(s: string)
    ensures forall i :: 0 <= i < |Lower(s)| ==> !IsUpper(Lower(s)[i])
    ensures forall c :: c !in s && !IsLower(c) ==> c !in Lower(s)
    ensures Lower(Lower(s)) == Lower(s)
  {
  }

  /** PHP's ucfirst. */
  function UcFirst(s: string): (r: string)
    ensures |r| == |s|
    ensures s != [] ==> r[0] == UpperChar(s[0]) && r[1..] == s[1..]
  {
    if s == [] then [] else [UpperChar(s[0])] + s[1..]
  }

  /** How many bytes the UTF-8 encoding of a character takes. */
  function Utf8Width(c: char): (n: nat)
    ensures 1 <= n <= 4
    ensures n == 1 <==> (c as int) < 0x80
  {
    if (c as int) < 0x80 then 1
    else if (c as int) < 0x800 then 2
    else if (c as int) < 0x1_0000 then 3
    else 4
  }

  /** PHP's strlen on the UTF-8 encoding of a string: its length in bytes. */
  function StrLen(s: string): (n: nat)
    decreases |s|
  {
    if s == [] then 0 else Utf8Width(s[0]) + StrLen(s[1..])
  }

  /** A string is one byte long exactly when it is one ASCII character; a string is
      never shorter in bytes than in characters, and has no bytes only when empty. */
  lemma {:induction false} StrLenBounds(s: string)
    ensures |s| <= StrLen(s) <= 4 * |s|
    ensures StrLen(s) == 0 <==> s == []
    ensures StrLen(s) == 1 <==> |s| == 1 && (s[0] as int) < 0x80
    decreases |s|
  {
    if s != [] {
      StrLenBounds(s[1..]);
    }
  }

  predicate StartsWith(s: string, prefix: string) {
    |prefix| <= |s| && s[..|prefix|] == prefix
  }

  /** PHP's str_replace for one search string: every occurrence of `p`, scanning left to
      right without overlap, is replaced by `r`; an empty search string changes nothing. */
  function Replace(s: string, p: string, r: string): string
    decreases |s|
  {
    if p == [] || |s| < |p| then s
    else if s[..|p|] == p then r + Replace(s[|p|..], p, r)
    else [s[0]] + Replace(s[1..], p, r)
  }

  /** A string without the first character of the search string is left as it is. */
  lemma {:induction false} ReplaceAbsent(s: string, p: string, r: string)
    requires p != [] && p[0] !in s
    ensures Replace(s, p, r) == s
  {
    if |s| >= |p| {
      assert s[0] != p[0];
      assert s[..|p|] != p;
      ReplaceAbsent(s[1..], p, r);
    }
  }

  /** A prefix without the search string's first character passes through unchanged. */
  lemma {:induction false} ReplaceAfterPlain(a: string, b: string, p: string, r: string)
    requires p != [] && p[0] !in a
    ensures Replace(a + b, p, r) == a + Replace(b, p, r)
  {
    if a != [] {
      var s := a + b;
      assert s[0] == a[0] && s[0] != p[0];
      if |s| >= |p| {
        assert s[..|p|] != p;
        assert s[1..] == a[1..] + b;
        ReplaceAfterPlain(a[1..], b, p, r);
      } else {
        assert |b| < |p|;
        ReplaceAbsent(a, p, r);
      }
    } else {
      assert a + b == b;
    }
  }

  /** An occurrence at the front is replaced and the scan continues after it. */
  lemma ReplaceAtFront(p: string, b: string, r: string)
    requires p != []
    ensures Replace(p + b, p, r) == r + Replace(b, p, r)
  {
    var s := p + b;
    assert s[..|p|] == p;
    assert s[|p|..] == b;
  }

  /** PHP's explode on a one-character separator. */
  function Split(s: string, sep: char): (parts: seq<string>)
    ensures |parts| >= 1
    ensures forall i :: 0 <= i < |parts| ==> sep !in parts[i]
    decreases |s|
  {
    if s == [] then [[]]
    else
      var rest := Split(s[1..], sep);
      if s[0] == sep then [[]] + rest else [[s[0]] + rest[0]] + rest[1..]
  }

  /** A string without the separator is one part. */
  lemma {:induction false} SplitNone(a: string, sep: char)
    requires sep !in a
    ensures Split(a, sep) == [a]
    decreases |a|
  {
    if a != [] {
      SplitNone(a[1..], sep);
      assert a[0] != sep;
      assert a == [a[0]] + a[1..];
    }
  }

  /** Exploding at the first separator gives the text before it, then the parts of the
      text after it. */
  lemma {:induction false} SplitAt(a: string, b: string, sep: char)
    requires sep !in a
    ensures Split(a + [sep] + b, sep) == [a] + Split(b, sep)
    decreases |a|
  {
    var s := a + [sep] + b;
    if a == [] {
      assert s[1..] == b;
    } else {
      assert s[0] == a[0] && a[0] != sep;
      assert s[1..] == a[1..] + [sep] + b;
      SplitAt(a[1..], b, sep);
      assert [s[0]] + a[1..] == a;
    }
  }

  /** PHP's implode. */
  function Join(parts: seq<string>, sep: string): string
    decreases |parts|
  {
    if parts == [] then []
    else if |parts| == 1 then parts[0]
    else parts[0] + sep + Join(parts[1..], sep)
  }

  /** Exploding and imploding again with the same separator gives back the string. */
  lemma {:induction false} JoinSplit(s: string, sep: char)
    ensures Join(Split(s, sep), [sep]) == s
    decreases |s|
  {
    if s != [] {
      var rest := Split(s[1..], sep);
      JoinSplit(s[1..], sep);
      if s[0] == sep {
        assert Split(s, sep) == [[]] + rest;
        assert s == [sep] + s[1..];
      } else {
        var parts := Split(s, sep);
        assert parts == [[s[0]] + rest[0]] + rest[1..];
        if |rest| == 1 {
          assert s[1..] == rest[0];
        } else {
          assert parts[1..] == rest[1..];
          assert Join(rest, [sep]) == rest[0] + [sep] + Join(rest[1..], [sep]);
        }
      }
    }
  }

  /** Imploding parts that avoid the separator and exploding again gives back the parts. */
  lemma {:induction false} SplitJoin(parts: seq<string>, sep: char)
    requires |parts| >= 1
    requires forall i :: 0 <= i < |parts| ==> sep !in parts[i]
    ensures Split(Join(parts, [sep]), sep) == parts
    decreases |parts|
  {
    if |parts| == 1 {
      SplitNone(parts[0], sep);
    } else {
      SplitJoin(parts[1..], sep);
      SplitAt(parts[0], Join(parts[1..], [sep]), sep);
      assert [parts[0]] + parts[1..] == parts;
    }
  }

  /** Lower-casing is determined character by character. */
  lemma LowerPointwise(s: string, t: string)
    requires |s| == |t| && forall i :: 0 <= i < |s| ==> LowerChar(s[i]) == t[i]
    ensures Lower(s) == t
  {
  }

  /** Joining characters that avoid `c` with a separator that avoids `c` avoids `c`. */
  lemma {:induction false} JoinAvoids(parts: seq<string>, sep: string, c: char)
    requires forall i :: 0 <= i < |parts| ==> c !in parts[i]
    requires c !in sep
    ensures c !in Join(parts, sep)
    decreases |parts|
  {
    if |parts| > 1 {
      JoinAvoids(parts[1..], sep, c);
    }
  }
}
