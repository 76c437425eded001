/** Project paths as the configuration accepts them and as `Path::starts_with` compares them. */
module ProjectPaths {
  import opened Text

  /** The component that starts at position `i` is `name`; both slashes separate components. */
  predicate ComponentAt(s: string, i: nat, name: string)
    requires i <= |s|
  {
    && (i == 0 || s[i - 1] == '/' || s[i - 1] == '\\')
    && name <= s[i..]
    && (i + |name| == |s| || s[i + |name|] == '/' || s[i + |name|] == '\\')
  }

  /** An absolute path, trimmed, without `.` or `..` components. */
  predicate IsCleanAbsolute(s: string) {
    && PresentAndTrimmed(s)
    && s[0] == '/'
    && forall i :: 0 <= i <= |s| ==> !ComponentAt(s, i, ".") && !ComponentAt(s, i, "..")
  }

  /** The names of an absolute path: separated by slashes, empty names dropped. `name` holds the
      characters read since the last slash. */
  function NamesFrom(s: string, name: string): seq<string> {
    if s == "" then (if name == "" then [] else [name])
    else if s[0] == '/' then (if name == "" then [] else [name]) + NamesFrom(s[1..], "")
    else NamesFrom(s[1..], name + [s[0]])
  }

  function Components(path: string): seq<string> {
    NamesFrom(path, "")
  }

  /** `Path::new(path).starts_with(base)` for absolute paths: whole components, not characters. */
  predicate StartsWith(path: string, base: string) {
    Components(base) <= Components(path)
  }

  predicate ShareTree(a: string, b: string) {
    StartsWith(a, b) || StartsWith(b, a)
  }

  // ---- what the components of a path are ----

  predicate SlashFree(s: string) {
    '/' !in s
  }

  /** The absolute path of the given names: each behind a slash. */
  function Slashed(names: seq<string>): string {
    if names == [] then "" else "/" + names[0] + Slashed(names[1..])
  }

  /** The path with doubled and trailing slashes removed; nothing is left of the root. */
  function Tidied(path: string): string {
    Slashed(Components(path))
  }

  /** An absolute path, not the root, without doubled or trailing slashes. */
  predicate Tidy(path: string) {
    && path != "" && path[0] == '/' && path[|path| - 1] != '/'
    && forall i :: 0 <= i < |path| - 1 ==> !(path[i] == '/' && path[i + 1] == '/')
  }

  lemma {:induction false} SlashSplits(a: string, b: string, name: string)
    ensures NamesFrom(a + "/" + b, name) == NamesFrom(a, name) + Components(b)
  {
    if a == "" {
      assert a + "/" + b == "/" + b && ("/" + b)[1..] == b;
    } else {
      assert (a + "/" + b)[1..] == a[1..] + "/" + b;
      SlashSplits(a[1..], b, if a[0] == '/' then "" else name + [a[0]]);
    }
  }

  /** A slash separates: the names of two texts joined by it are those of the one, then of the other. */
  lemma ComponentsSplit(a: string, b: string)
    ensures Components(a + "/" + b) == Components(a) + Components(b)
  {
    SlashSplits(a, b, "");
  }

  /** A doubled slash, and a slash at either end, change nothing. */
  lemma ExtraSlashesDoNotMatter(a: string, b: string)
    ensures Components(a + "//" + b) == Components(a + "/" + b)
    ensures Components(a + "/") == Components(a) == Components("/" + a)
  {
    ComponentsSplit(a, "/" + b);
    ComponentsSplit("", b);
    ComponentsSplit(a, b);
    ComponentsSplit(a, "");
    ComponentsSplit("", a);
    assert a + "/" + ("/" + b) == a + "//" + b;
    assert "" + "/" + b == "/" + b && a + "/" + "" == a + "/" && "" + "/" + a == "/" + a;
  }

  lemma {:induction false} NameIsRead(word: string, name: string)
    requires SlashFree(word)
    ensures NamesFrom(word, name) == if name + word == "" then [] else [name + word]
  {
    if word == "" {
      assert name + word == name;
    } else {
      NameIsRead(word[1..], name + [word[0]]);
      assert name + [word[0]] + word[1..] == name + word;
    }
  }

  lemma FirstName(word: string, rest: string)
    requires word != "" && SlashFree(word) && (rest == "" || rest[0] == '/')
    ensures Components("/" + word + rest) == [word] + Components(rest)
  {
    NameIsRead(word, "");
    assert "" + word == word;
    ExtraSlashesDoNotMatter(word + rest, "");
    assert "/" + word + rest == "/" + (word + rest);
    if rest == "" {
      assert word + rest == word;
    } else {
      var t := rest[1..];
      assert word + rest == word + "/" + t && rest == "/" + t;
      ComponentsSplit(word, t);
      ExtraSlashesDoNotMatter(t, "");
    }
  }

  /** The components of the absolute path of some names are exactly those names. */
  lemma {:induction false} ComponentsOfSlashed(names: seq<string>)
    requires forall n :: n in names ==> n != "" && SlashFree(n)
    ensures Components(Slashed(names)) == names
  {
    if names == [] {
    } else {
      assert forall n :: n in names[1..] ==> n in names;
      assert names[0] in names;
      ComponentsOfSlashed(names[1..]);
      FirstName(names[0], Slashed(names[1..]));
    }
  }

  lemma {:induction false} NamesAreNames(s: string, name: string)
    requires SlashFree(name)
    ensures forall n :: n in NamesFrom(s, name) ==> n != "" && SlashFree(n)
  {
    if s == "" {
    } else {
      NamesAreNames(s[1..], if s[0] == '/' then "" else name + [s[0]]);
    }
  }

  lemma {:induction false} TidyFrom(s: string, name: string)
    requires SlashFree(name)
    requires forall i :: 0 <= i < |s| - 1 ==> !(s[i] == '/' && s[i + 1] == '/')
    requires s != "" ==> s[|s| - 1] != '/'
    requires name == "" ==> s != "" && s[0] != '/'
    ensures Slashed(NamesFrom(s, name)) == "/" + name + s
  {
    if s == "" {
      assert Slashed([name]) == "/" + name + Slashed([]);
    } else {
      var t := s[1..];
      assert forall i :: 0 <= i < |t| ==> t[i] == s[i + 1];
      if s[0] == '/' {
        TidyFrom(t, "");
        assert ([name] + NamesFrom(t, ""))[1..] == NamesFrom(t, "");
        assert "/" + "" + t == s;
      } else {
        TidyFrom(t, name + [s[0]]);
        assert "/" + (name + [s[0]]) + t == "/" + name + s;
      }
    }
  }

  /** A tidy path is its own tidied form. */
  lemma TidyIsTidied(path: string)
    requires Tidy(path)
    ensures Tidied(path) == path
  {
    var t := path[1..];
    assert t != "" by {
      assert path[0] == '/' && path[|path| - 1] != '/';
    }
    assert forall i :: 0 <= i < |t| ==> t[i] == path[i + 1];
    TidyFrom(t, "");
    ExtraSlashesDoNotMatter(t, "");
    assert "/" + "" + t == path && "/" + t == path;
  }

  lemma {:induction false} SlashedAppend(a: seq<string>, b: seq<string>)
    ensures Slashed(a + b) == Slashed(a) + Slashed(b)
  {
    if a == [] {
      assert a + b == b;
    } else {
      SlashedAppend(a[1..], b);
      assert (a + b)[1..] == a[1..] + b;
    }
  }

  /** The text is the base, or goes on behind it with a slash. */
  predicate AtOrBelow(path: string, base: string) {
    path == base || base + "/" <= path
  }

  lemma TidiedComponents(path: string)
    ensures Components(Tidied(path)) == Components(path)
  {
    NamesAreNames(path, "");
    ComponentsOfSlashed(Components(path));
  }

  lemma PrefixGoesOn(b: seq<string>, more: seq<string>)
    ensures AtOrBelow(Slashed(b + more), Slashed(b))
  {
    SlashedAppend(b, more);
    if more == [] {
      assert Slashed(b) + Slashed(more) == Slashed(b);
    } else {
      assert Slashed(more) == "/" + (more[0] + Slashed(more[1..]));
      assert Slashed(b) + Slashed(more) == Slashed(b) + "/" + (more[0] + Slashed(more[1..]));
    }
  }

  lemma GoingOnIsPrefix(path: string, base: string)
    requires AtOrBelow(path, base)
    ensures Components(base) <= Components(path)
  {
    if path != base {
      var rest := path[|base| + 1..];
      ComponentsSplit(base, rest);
      assert base + "/" + rest == path;
    }
  }

  /** A path starts with a base exactly when, extra slashes aside, it is the base or goes on behind it
      with a slash: whole names are compared, never parts of one. */
  lemma StartsWithIsAtOrBelow(path: string, base: string)
    ensures StartsWith(path, base) <==> AtOrBelow(Tidied(path), Tidied(base))
  {
    var p, b := Components(path), Components(base);
    if b <= p {
      assert p == b + p[|b|..];
      PrefixGoesOn(b, p[|b|..]);
    }
    if AtOrBelow(Tidied(path), Tidied(base)) {
      GoingOnIsPrefix(Tidied(path), Tidied(base));
      TidiedComponents(path);
      TidiedComponents(base);
    }
  }

  /** For tidy paths that is a comparison of the very texts. */
  lemma TidyStartsWith(path: string, base: string)
    requires Tidy(path) && Tidy(base)
    ensures StartsWith(path, base) <==> AtOrBelow(path, base)
  {
    StartsWithIsAtOrBelow(path, base);
    TidyIsTidied(path);
    TidyIsTidied(base);
  }

  lemma ShareTreeIsText(a: string, b: string)
    ensures ShareTree(a, b) <==> AtOrBelow(Tidied(a), Tidied(b)) || AtOrBelow(Tidied(b), Tidied(a))
  {
    StartsWithIsAtOrBelow(a, b);
    StartsWithIsAtOrBelow(b, a);
  }

  // ---- what a clean path is ----

  lemma {:induction false} NamesHavePlaces(s: string, name: string, x: string)
    requires SlashFree(name) && x in NamesFrom(s, name)
    ensures exists i :: 0 <= i <= |name + s| && ComponentAt(name + s, i, x)
  {
    var t := name + s;
    if s == "" {
      assert ComponentAt(t, 0, x);
    } else if s[0] == '/' {
      if x in NamesFrom(s[1..], "") {
        NamesHavePlaces(s[1..], "", x);
        assert "" + s[1..] == s[1..];
        var i :| 0 <= i <= |s[1..]| && ComponentAt(s[1..], i, x);
        assert t[|name| + 1 + i..] == s[1..][i..];
        assert ComponentAt(t, |name| + 1 + i, x);
      } else {
        assert ComponentAt(t, 0, x);
      }
    } else {
      NamesHavePlaces(s[1..], name + [s[0]], x);
      assert name + [s[0]] + s[1..] == t;
    }
  }

  lemma NameAtFront(x: string, rest: string)
    requires x != "" && SlashFree(x) && (rest == "" || rest[0] == '/')
    ensures x in Components(x + rest)
  {
    NameIsRead(x, "");
    assert "" + x == x;
    if rest == "" {
      assert x + rest == x;
    } else {
      assert x + rest == x + "/" + rest[1..];
      ComponentsSplit(x, rest[1..]);
    }
  }

  lemma NameBehindSlash(a: string, b: string, x: string)
    requires x in Components(b)
    ensures x in Components(a + "/" + b)
  {
    ComponentsSplit(a, b);
  }

  lemma PlacesAreNames(s: string, i: nat, x: string)
    requires x != "" && SlashFree(x) && i <= |s| && '\\' !in s && ComponentAt(s, i, x)
    ensures x in Components(s)
  {
    var rest := s[i + |x|..];
    assert s[i..] == x + rest;
    NameAtFront(x, rest);
    if i == 0 {
      assert s[i..] == s;
    } else {
      assert s == s[..i - 1] + "/" + s[i..];
      NameBehindSlash(s[..i - 1], s[i..], x);
    }
  }

  /** Both kinds of slashes separate here. */
  function OneKindOfSlash(s: string): (r: string)
    ensures |r| == |s| && '\\' !in r
    ensures forall i :: 0 <= i < |s| ==> r[i] == if s[i] == '\\' then '/' else s[i]
  {
    if s == "" then "" else [if s[0] == '\\' then '/' else s[0]] + OneKindOfSlash(s[1..])
  }

  predicate IsDots(x: string) {
    x == "." || x == ".."
  }

  lemma SamePrefix(x: string, t: string, u: string)
    requires IsDots(x) && |t| == |u|
    requires forall k :: 0 <= k < |t| ==> u[k] == if t[k] == '\\' then '/' else t[k]
    ensures x <= t <==> x <= u
  {
    if x == "." {
      assert x <= t <==> |t| >= 1 && t[0] == '.';
      assert x <= u <==> |u| >= 1 && u[0] == '.';
    } else {
      assert x <= t <==> |t| >= 2 && t[0] == '.' && t[1] == '.';
      assert x <= u <==> |u| >= 2 && u[0] == '.' && u[1] == '.';
    }
  }

  lemma SamePlaces(s: string, i: nat, x: string)
    requires IsDots(x) && i <= |s|
    ensures ComponentAt(s, i, x) <==> ComponentAt(OneKindOfSlash(s), i, x)
  {
    var r := OneKindOfSlash(s);
    SamePrefix(x, s[i..], r[i..]);
  }

  lemma DotsHavePlaces(r: string, x: string)
    requires IsDots(x) && '\\' !in r
    ensures x in Components(r) <==> exists i :: 0 <= i <= |r| && ComponentAt(r, i, x)
  {
    assert "" + r == r;
    if x in Components(r) {
      NamesHavePlaces(r, "", x);
    }
    if i :| 0 <= i <= |r| && ComponentAt(r, i, x) {
      PlacesAreNames(r, i, x);
    }
  }

  lemma DotsIffPlaces(s: string, x: string)
    requires IsDots(x)
    ensures x in Components(OneKindOfSlash(s)) <==> exists i :: 0 <= i <= |s| && ComponentAt(s, i, x)
  {
    var r := OneKindOfSlash(s);
    DotsHavePlaces(r, x);
    forall i | 0 <= i <= |s|
      ensures ComponentAt(s, i, x) <==> ComponentAt(r, i, x)
    {
      SamePlaces(s, i, x);
    }
  }

  /** A path is clean exactly when it is trimmed, absolute, and no component between slashes of either
      kind is a dot or two dots. */
  lemma CleanIffNoDots(s: string)
    ensures IsCleanAbsolute(s) <==>
      && s != "" && Trim(s) == s && s[0] == '/'
      && "." !in Components(OneKindOfSlash(s)) && ".." !in Components(OneKindOfSlash(s))
  {
    TrimFixpoint(s);
    DotsIffPlaces(s, ".");
    DotsIffPlaces(s, "..");
  }
}
