/** Escaping strings for service definition files. */
module ServiceEscaping {
  /** `str::replace` with a one-character pattern. */
  function ReplaceAll(s: string, c: char, image: string): string {
    if s == "" then "" else (if s[0] == c then image else [s[0]]) + ReplaceAll(s[1..], c, image)
  }

  function XmlEscape(value: string): string {
    ReplaceAll(ReplaceAll(ReplaceAll(ReplaceAll(ReplaceAll(value,
      '&', "&amp;"), '<', "&lt;"), '>', "&gt;"), '"', "&quot;"), '\'', "&apos;")
  }

  function SystemdEscape(value: string): string {
    ReplaceAll(ReplaceAll(value, '\\', "\\\\"), '"', "\\\"")
  }

  // ---- one pass over the characters ----

  function Substitute(s: string, f: char -> string): string {
    if s == "" then "" else f(s[0]) + Substitute(s[1..], f)
  }

  /** The predefined entity of a character (section 4.6 of XML 1.0), or the character itself. */
  const ENTITY: char -> string := (c: char) =>
    if c == '&' then "&amp;" else if c == '<' then "&lt;" else if c == '>' then "&gt;"
    else if c == '"' then "&quot;" else if c == '\'' then "&apos;" else [c]

  const BACKSLASHED: char -> string := (c: char) =>
    if c == '\\' then "\\\\" else if c == '"' then "\\\"" else [c]

  lemma {:induction false} ReplaceAppend(a: string, b: string, c: char, image: string)
    ensures ReplaceAll(a + b, c, image) == ReplaceAll(a, c, image) + ReplaceAll(b, c, image)
  {
    if a == "" {
      assert a + b == b;
    } else {
      var head := if a[0] == c then image else [a[0]];
      assert (a + b)[0] == a[0] && (a + b)[1..] == a[1..] + b;
      assert ReplaceAll(a + b, c, image) == head + ReplaceAll(a[1..] + b, c, image);
      ReplaceAppend(a[1..], b, c, image);
      assert ReplaceAll(a, c, image) == head + ReplaceAll(a[1..], c, image);
      assert head + (ReplaceAll(a[1..], c, image) + ReplaceAll(b, c, image))
          == (head + ReplaceAll(a[1..], c, image)) + ReplaceAll(b, c, image);
    }
  }

  lemma {:induction false} ReplaceAbsent(s: string, c: char, image: string)
    requires c !in s
    ensures ReplaceAll(s, c, image) == s
  {
    if s == "" {
    } else {
      ReplaceAbsent(s[1..], c, image);
    }
  }

  /** One more replacement after a substitution is a substitution again, if it rewrites the image
      of every character as the new substitution says. */
  lemma {:induction false} ReplaceAfterSubstitute(s: string, f: char -> string, g: char -> string, c: char,
                                                  image: string)
    requires forall x :: ReplaceAll(f(x), c, image) == g(x)
    ensures ReplaceAll(Substitute(s, f), c, image) == Substitute(s, g)
  {
    if s == "" {
    } else {
      ReplaceAfterSubstitute(s[1..], f, g, c, image);
      ReplaceAppend(f(s[0]), Substitute(s[1..], f), c, image);
    }
  }

  lemma {:induction false} SubstituteIdentity(s: string, f: char -> string)
    requires forall x :: f(x) == [x]
    ensures Substitute(s, f) == s
  {
    if s == "" {
    } else {
      SubstituteIdentity(s[1..], f);
    }
  }

  /** The substitution reached after the first `n` of the five replacements. */
  function Stage(n: nat, c: char): string {
    if n >= 1 && c == '&' then "&amp;"
    else if n >= 2 && c == '<' then "&lt;"
    else if n >= 3 && c == '>' then "&gt;"
    else if n >= 4 && c == '"' then "&quot;"
    else if n >= 5 && c == '\'' then "&apos;"
    else [c]
  }

  function StageOf(n: nat): char -> string {
    c => Stage(n, c)
  }

  /** The `n`-th replacement of the chain: which character, and what it becomes. */
  function Target(n: nat): char {
    if n == 0 then '&' else if n == 1 then '<' else if n == 2 then '>' else if n == 3 then '"' else '\''
  }

  function Image(n: nat): string {
    if n == 0 then "&amp;" else if n == 1 then "&lt;" else if n == 2 then "&gt;" else if n == 3 then "&quot;"
    else "&apos;"
  }

  function EscapeSteps(value: string, n: nat): string {
    if n == 0 then value else ReplaceAll(EscapeSteps(value, n - 1), Target(n - 1), Image(n - 1))
  }

  lemma StageStep(n: nat, x: char)
    requires n < 5
    ensures ReplaceAll(Stage(n, x), Target(n), Image(n)) == Stage(n + 1, x)
  {
    var before := Stage(n, x);
    if |before| > 1 {
      ReplaceAbsent(before, Target(n), Image(n));
    } else {
      assert before == [x] && before[1..] == "";
    }
  }

  lemma {:induction false} EscapeStepsSubstitute(value: string, n: nat)
    requires n <= 5
    ensures EscapeSteps(value, n) == Substitute(value, StageOf(n))
  {
    if n == 0 {
      SubstituteIdentity(value, StageOf(0));
    } else {
      EscapeStepsSubstitute(value, n - 1);
      forall x
        ensures ReplaceAll(StageOf(n - 1)(x), Target(n - 1), Image(n - 1)) == StageOf(n)(x)
      {
        StageStep(n - 1, x);
      }
      ReplaceAfterSubstitute(value, StageOf(n - 1), StageOf(n), Target(n - 1), Image(n - 1));
    }
  }

  lemma EscapeIsFiveSteps(value: string)
    ensures XmlEscape(value) == EscapeSteps(value, 5)
  {
    var n := 0;
    assert EscapeSteps(value, n) == value;
    assert EscapeSteps(value, n + 1) == ReplaceAll(EscapeSteps(value, n), '&', "&amp;");
    assert EscapeSteps(value, n + 2) == ReplaceAll(EscapeSteps(value, n + 1), '<', "&lt;");
    assert EscapeSteps(value, n + 3) == ReplaceAll(EscapeSteps(value, n + 2), '>', "&gt;");
    assert EscapeSteps(value, n + 4) == ReplaceAll(EscapeSteps(value, n + 3), '"', "&quot;");
    assert EscapeSteps(value, n + 5) == ReplaceAll(EscapeSteps(value, n + 4), '\'', "&apos;");
  }

  lemma {:induction false} SubstituteSame(s: string, f: char -> string, g: char -> string)
    requires forall x :: f(x) == g(x)
    ensures Substitute(s, f) == Substitute(s, g)
  {
    if s == "" {
    } else {
      SubstituteSame(s[1..], f, g);
    }
  }

  /** The five successive replacements are one substitution of characters by entities: because the
      ampersand goes first, no entity is ever escaped again. */
  lemma XmlEscapeIsOneSubstitution(value: string)
    ensures XmlEscape(value) == Substitute(value, ENTITY)
  {
    EscapeIsFiveSteps(value);
    EscapeStepsSubstitute(value, 5);
    SubstituteSame(value, StageOf(5), ENTITY);
  }

  predicate StartsEntity(s: string) {
    "&amp;" <= s || "&lt;" <= s || "&gt;" <= s || "&quot;" <= s || "&apos;" <= s
  }

  /** Position `i` holds no markup character, except an ampersand that starts a predefined entity. */
  predicate NoMarkupAt(s: string, i: nat)
    requires i < |s|
  {
    && s[i] != '<' && s[i] != '>' && s[i] != '"' && s[i] != '\''
    && (s[i] == '&' ==> StartsEntity(s[i..]))
  }

  lemma {:induction false} EntitiesHaveNoMarkup(value: string)
    ensures forall i :: 0 <= i < |Substitute(value, ENTITY)| ==> NoMarkupAt(Substitute(value, ENTITY), i)
  {
    if value == "" {
    } else {
      EntitiesHaveNoMarkup(value[1..]);
      var image, rest := ENTITY(value[0]), Substitute(value[1..], ENTITY);
      var s := image + rest;
      forall i | 0 <= i < |s|
        ensures NoMarkupAt(s, i)
      {
        if i < |image| {
          assert s[i] == image[i];
          if s[i] == '&' {
            assert i == 0 && s[i..] == s && StartsEntity(image);
          }
        } else {
          assert NoMarkupAt(rest, i - |image|);
          assert s[i..] == rest[i - |image|..];
        }
      }
    }
  }

  /** No markup character survives, and every ampersand starts a predefined entity. */
  lemma XmlEscapeHasNoMarkup(value: string)
    ensures forall i :: 0 <= i < |XmlEscape(value)| ==> NoMarkupAt(XmlEscape(value), i)
  {
    XmlEscapeIsOneSubstitution(value);
    EntitiesHaveNoMarkup(value);
  }

  /** Reading a text with predefined entities; an ampersand that starts none is malformed. */
  function Decode(s: string): string {
    if s == "" then ""
    else if "&amp;" <= s then "&" + Decode(s[5..])
    else if "&lt;" <= s then "<" + Decode(s[4..])
    else if "&gt;" <= s then ">" + Decode(s[4..])
    else if "&quot;" <= s then "\"" + Decode(s[6..])
    else if "&apos;" <= s then "'" + Decode(s[6..])
    else [s[0]] + Decode(s[1..])
  }

  lemma DecodeEntity(c: char, rest: string)
    ensures Decode(ENTITY(c) + rest) == [c] + Decode(rest)
  {
    var s := ENTITY(c) + rest;
    assert s[|ENTITY(c)|..] == rest;
    if c == '&' {
      assert "&amp;" <= s;
    } else if c == '<' {
      assert s[1] == 'l' && "&lt;" <= s;
    } else if c == '>' {
      assert s[1] == 'g' && "&gt;" <= s;
    } else if c == '"' {
      assert s[1] == 'q' && "&quot;" <= s;
    } else if c == '\'' {
      assert s[1] == 'a' && s[2] == 'p' && "&apos;" <= s;
    } else {
      assert s[0] == c;
    }
  }

  lemma {:induction false} DecodeSubstituted(value: string)
    ensures Decode(Substitute(value, ENTITY)) == value
  {
    if value == "" {
    } else {
      DecodeSubstituted(value[1..]);
      DecodeEntity(value[0], Substitute(value[1..], ENTITY));
    }
  }

  /** Decoding the predefined entities recovers every string. */
  lemma XmlEscapeRoundTrip(value: string)
    ensures Decode(XmlEscape(value)) == value
  {
    XmlEscapeIsOneSubstitution(value);
    DecodeSubstituted(value);
  }

  // ---- the backslash escape ----

  lemma SystemdEscapeIsOneSubstitution(value: string)
    ensures SystemdEscape(value) == Substitute(value, BACKSLASHED)
  {
    var keep: char -> string := x => [x];
    var half: char -> string := x => if x == '\\' then "\\\\" else [x];
    SubstituteIdentity(value, keep);
    forall x
      ensures ReplaceAll(keep(x), '\\', "\\\\") == half(x) && ReplaceAll(half(x), '"', "\\\"") == BACKSLASHED(x)
    {
      assert [x][1..] == "";
      if x == '\\' {
        ReplaceAbsent("\\\\", '"', "\\\"");
      }
    }
    ReplaceAfterSubstitute(value, keep, half, '\\', "\\\\");
    ReplaceAfterSubstitute(value, half, BACKSLASHED, '"', "\\\"");
  }

  function Unescape(s: string): string {
    if s == "" then ""
    else if s[0] == '\\' && |s| > 1 then [s[1]] + Unescape(s[2..])
    else [s[0]] + Unescape(s[1..])
  }

  lemma {:induction false} UnescapeSubstituted(value: string)
    ensures Unescape(Substitute(value, BACKSLASHED)) == value
  {
    if value == "" {
    } else {
      var rest := Substitute(value[1..], BACKSLASHED);
      UnescapeSubstituted(value[1..]);
      var s := BACKSLASHED(value[0]) + rest;
      assert s[|BACKSLASHED(value[0])|..] == rest;
    }
  }

  /** Dropping the escaping backslashes recovers every string. */
  lemma SystemdEscapeRoundTrip(value: string)
    ensures Unescape(SystemdEscape(value)) == value
  {
    SystemdEscapeIsOneSubstitution(value);
    UnescapeSubstituted(value);
  }
}
