/** The string operations of Rust's standard library that the program relies on. */
module Text {
  /** `char::is_whitespace`: the Unicode White_Space property. */
  predicate IsSpace(c: char) {
    var n := c as int;
    0x09 <= n <= 0x0D || n == 0x20 || n == 0x85 || n == 0xA0 || n == 0x1680
    || 0x2000 <= n <= 0x200A || n == 0x2028 || n == 0x2029 || n == 0x202F || n == 0x205F || n == 0x3000
  }

  /** Position of the first character at or after `i` that is not white space. */
  function SkipSpaces(s: string, i: nat): (r: nat)
    requires i <= |s|
    ensures i <= r <= |s|
    ensures forall j :: i <= j < r ==> IsSpace(s[j])
    ensures r < |s| ==> !IsSpace(s[r])
    decreases |s| - i
  {
    if i < |s| && IsSpace(s[i]) then SkipSpaces(s, i + 1) else i
  }

  /** Position of the first white space at or after `i`. */
  function SkipWord(s: string, i: nat): (r: nat)
    requires i <= |s|
    ensures i <= r <= |s|
    ensures forall j :: i <= j < r ==> !IsSpace(s[j])
    ensures r < |s| ==> IsSpace(s[r])
    decreases |s| - i
  {
    if i < |s| && !IsSpace(s[i]) then SkipWord(s, i + 1) else i
  }

  /** Length of the text up to `n` without the white space at its end. */
  function DropSpaces(s: string, n: nat): (r: nat)
    requires n <= |s|
    ensures r <= n
    ensures forall j :: r <= j < n ==> IsSpace(s[j])
    ensures r > 0 ==> !IsSpace(s[r - 1])
  {
    if n > 0 && IsSpace(s[n - 1]) then DropSpaces(s, n - 1) else n
  }

  function TrimStart(s: string): string {
    s[SkipSpaces(s, 0)..]
  }

  function TrimEnd(s: string): string {
    s[..DropSpaces(s, |s|)]
  }

  function Trim(s: string): string {
    TrimEnd(TrimStart(s))
  }

  /** The test behind every "must be present" check, `!value.trim().is_empty()`. */
  predicate Present(s: string) {
    exists c :: c in s && !IsSpace(c)
  }

  predicate SpaceFree(s: string) {
    forall i :: 0 <= i < |s| ==> !IsSpace(s[i])
  }

  predicate Trimmed(s: string) {
    s == "" || (!IsSpace(s[0]) && !IsSpace(s[|s| - 1]))
  }

  /** Present and without surrounding whitespace. */
  predicate PresentAndTrimmed(s: string) {
    s != "" && Trimmed(s)
  }

  /** White space is exactly the 25 characters with the White_Space property. */
  lemma WhiteSpaceIsListed(c: char)
    ensures IsSpace(c) <==> c as int in {
      0x09, 0x0A, 0x0B, 0x0C, 0x0D, 0x20, 0x85, 0xA0, 0x1680, 0x2000, 0x2001, 0x2002, 0x2003, 0x2004, 0x2005,
      0x2006, 0x2007, 0x2008, 0x2009, 0x200A, 0x2028, 0x2029, 0x202F, 0x205F, 0x3000}
  {
  }

  lemma PresentIffTrimNonEmpty(s: string)
    ensures Present(s) <==> Trim(s) != ""
  {
    var t := TrimStart(s);
    if t != "" {
      assert !IsSpace(s[|s| - |t|]);
      assert !IsSpace(t[0]);
    }
  }

  lemma TrimFixpoint(s: string)
    ensures Trim(s) == s <==> Trimmed(s)
  {
  }
}

/** Composite keys written as one string, each field followed by a separator. */
module CompositeKeys {
  function Terminated(fields: seq<string>, sep: char): string {
    if fields == [] then "" else fields[0] + [sep] + Terminated(fields[1..], sep)
  }

  /** The same with no separator after the last field. */
  function Joined(fields: seq<string>, sep: char): string
    requires fields != []
  {
    if |fields| == 1 then fields[0] else fields[0] + [sep] + Joined(fields[1..], sep)
  }

  predicate Free(fields: seq<string>, sep: char) {
    forall f :: f in fields ==> sep !in f
  }

  lemma {:induction false} TerminatedInjective(a: seq<string>, b: seq<string>, sep: char)
    requires |a| == |b|
    requires Free(a, sep) && Free(b, sep)
    requires Terminated(a, sep) == Terminated(b, sep)
    ensures a == b
  {
    if a == [] {
    } else {
      var ta, tb := Terminated(a[1..], sep), Terminated(b[1..], sep);
      var t := Terminated(a, sep);
      assert t[|a[0]|] == sep && t[|b[0]|] == sep;
      assert sep !in a[0] && sep !in b[0];
      assert forall i :: 0 <= i < |a[0]| ==> t[i] == a[0][i] != sep;
      assert forall i :: 0 <= i < |b[0]| ==> t[i] == b[0][i] != sep;
      assert a[0] == t[..|a[0]|] == b[0];
      assert ta == t[|a[0]| + 1..] == tb;
      TerminatedInjective(a[1..], b[1..], sep);
      assert a == [a[0]] + a[1..] && b == [b[0]] + b[1..];
    }
  }

  lemma PrefixCancels(prefix: string, a: string, b: string)
    ensures prefix + a == prefix + b <==> a == b
  {
    assert (prefix + a)[|prefix|..] == a && (prefix + b)[|prefix|..] == b;
  }

  /** The first field is told from the rest if it does not hold the separator. */
  lemma HeadsAgree(a: string, rest: string, b: string, other: string, sep: char)
    requires sep !in a && sep !in b
    requires a + [sep] + rest == b + [sep] + other
    ensures a == b && rest == other
  {
    var t := a + [sep] + rest;
    assert t[|a|] == sep && t[|b|] == sep;
    assert forall i :: 0 <= i < |a| ==> t[i] == a[i];
    assert forall i :: 0 <= i < |b| ==> t[i] == b[i];
    assert a == t[..|a|] && b == t[..|b|];
    assert rest == t[|a| + 1..] && other == t[|b| + 1..];
  }
}
