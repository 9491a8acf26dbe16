/**
 * Upload paths of `src/captures/captureStore.ts`: the text a file is listed under,
 * as `safeRelativePath` leaves it, and the file it names once joined to the draft's
 * directory. Different texts can name one file. Paths are POSIX paths.
 */
module DraftPaths {
  import opened Wrappers

  /** What the file map is keyed by. */
  datatype Path = Path(text: string)

  /** A place below the draft's directory, name by name. */
  type Target = seq<string>

  /** The node's own files in a draft's directory. */
  const MARKER: Target := [".draft.json"]
  const MANIFEST: Target := ["capture.json"]

  predicate Reserved(t: Target) { t == MARKER || t == MANIFEST }

  /** Backslashes become slashes. */
  function Slashed(s: string): string {
    if s == "" then "" else [if s[0] == '\\' then '/' else s[0]] + Slashed(s[1..])
  }

  function Stripped(s: string): string {
    if s != "" && s[0] == '/' then Stripped(s[1..]) else s
  }

  predicate Climbs(s: string) { exists i :: 0 <= i < |s| - 1 && s[i] == '.' && s[i + 1] == '.' }

  /** A name that normalisation keeps. */
  function Kept(name: string): Target { if name == "" || name == "." then [] else [name] }

  /** The names of `s`, the first of which has begun with `name`. */
  function NamesFrom(name: string, s: string): Target
    decreases |s|
  {
    if s == "" then Kept(name)
    else if s[0] == '/' then Kept(name) + NamesFrom("", s[1..])
    else NamesFrom(name + [s[0]], s[1..])
  }

  function Names(s: string): Target { NamesFrom("", s) }

  /** The place of a listed file. */
  function Place(p: Path): Target { Names(p.text) }

  /** A text that ends in a slash names a directory, onto which no file can be renamed. */
  predicate NamesDirectory(s: string) { s != "" && s[|s| - 1] == '/' }

  /** `safeRelativePath`, and the test that the joined path lies below the directory. */
  function SafeRelative(raw: string): Option<Path> {
    var s := Stripped(Slashed(raw));
    if s == "" || Climbs(s) || (Names(s) == [] && !NamesDirectory(s)) then None else Some(Path(s))
  }

  // ----- An accepted path stays inside -----

  lemma ClimbsInside(a: string, b: string)
    requires !Climbs(a + b)
    ensures !Climbs(a) && !Climbs(b)
  {
    forall i | 0 <= i < |a| - 1 ensures a[i] != '.' || a[i + 1] != '.' {
      assert (a + b)[i] == a[i] && (a + b)[i + 1] == a[i + 1];
    }
    forall i | 0 <= i < |b| - 1 ensures b[i] != '.' || b[i + 1] != '.' {
      assert (a + b)[|a| + i] == b[i] && (a + b)[|a| + i + 1] == b[i + 1];
    }
  }

  predicate ProperName(name: string) { name != "" && name != "." && name != ".." && '/' !in name }

  lemma {:induction false} NamesAreProper(name: string, s: string)
    requires !Climbs(name + s) && '/' !in name
    ensures forall x :: x in NamesFrom(name, s) ==> ProperName(x)
    decreases |s|
  {
    ClimbsInside(name, s);
    assert Climbs("..") by { assert ".."[0] == '.' && ".."[1] == '.'; }
    if s != "" {
      if s[0] == '/' {
        assert name + s == name + [s[0]] + s[1..];
        ClimbsInside(name + [s[0]], s[1..]);
        assert "" + s[1..] == s[1..];
        NamesAreProper("", s[1..]);
      } else {
        assert name + s == name + [s[0]] + s[1..];
        NamesAreProper(name + [s[0]], s[1..]);
      }
    }
  }

  /** Every accepted path names a place strictly below the directory, or a directory there. */
  lemma AcceptedStaysInside(raw: string)
    requires SafeRelative(raw).Some?
    ensures
      var p := SafeRelative(raw).value;
      && (forall x :: x in Place(p) ==> ProperName(x))
      && (Place(p) == [] ==> NamesDirectory(p.text))
  {
    var s := SafeRelative(raw).value.text;
    assert "" + s == s;
    NamesAreProper("", s);
  }

  // ----- Two texts, one file -----

  function Joined(t: Target): string {
    if t == [] then "" else if |t| == 1 then t[0] else t[0] + "/" + Joined(t[1..])
  }

  /** A text that is the join of its own names: no empty name, no dot, no trailing slash. */
  predicate Normal(p: Path) { p.text == Joined(Place(p)) }

  /** Normal texts of one file are one text. */
  lemma NormalIsUnique(p: Path, q: Path)
    requires Normal(p) && Normal(q) && Place(p) == Place(q)
    ensures p == q
  {
  }

  /** The names of two texts joined by slashes. */
  lemma NamesJoin(a: string, slashes: string, b: string)
    requires ProperName(a) && '/' !in b && b != "" && b != "." && slashes != ""
    requires forall i :: 0 <= i < |slashes| ==> slashes[i] == '/'
    ensures Names(a + slashes + b) == [a, b]
  {
    NamesPrefix("", a, slashes + b);
    assert a + slashes + b == a + (slashes + b) && "" + a == a;
    NamesSlashes(a, slashes, b);
    OneName("", b);
    assert "" + b == b;
  }

  lemma {:induction false} NamesPrefix(name: string, a: string, rest: string)
    requires '/' !in a
    ensures NamesFrom(name, a + rest) == NamesFrom(name + a, rest)
    decreases |a|
  {
    if a == "" {
      assert a + rest == rest && name + a == name;
    } else {
      NamesPrefix(name + [a[0]], a[1..], rest);
      assert (a + rest)[1..] == a[1..] + rest;
      assert name + [a[0]] + a[1..] == name + a;
    }
  }

  lemma {:induction false} NamesSlashes(name: string, slashes: string, b: string)
    requires slashes != "" && forall i :: 0 <= i < |slashes| ==> slashes[i] == '/'
    ensures NamesFrom(name, slashes + b) == Kept(name) + NamesFrom("", b)
    decreases |slashes|
  {
    assert (slashes + b)[1..] == slashes[1..] + b && (slashes + b)[0] == slashes[0];
    if |slashes| == 1 {
      assert slashes[1..] + b == b;
    } else {
      NamesSlashes("", slashes[1..], b);
    }
  }

  /** Both are accepted as they are, and name one file. */
  lemma DoubledSlash(p: string, q: string)
    requires p == "a/b" && q == "a//b"
    ensures SafeRelative(p) == Some(Path(p)) && SafeRelative(q) == Some(Path(q))
    ensures Place(Path(p)) == Place(Path(q)) == ["a", "b"]
  {
    NamesJoin("a", "/", "b");
    NamesJoin("a", "//", "b");
    assert p == "a" + "/" + "b" && q == "a" + "//" + "b";
    Untouched(p);
    Untouched(q);
  }

  lemma {:induction false} Untouched(s: string)
    requires '\\' !in s
    ensures Slashed(s) == s
  {
    if s != "" { Untouched(s[1..]); }
  }

  lemma {:induction false} OneName(name: string, s: string)
    requires '/' !in s
    ensures NamesFrom(name, s) == Kept(name + s)
    decreases |s|
  {
    if s == "" {
      assert name + s == name;
    } else {
      OneName(name + [s[0]], s[1..]);
      assert name + [s[0]] + s[1..] == name + s;
    }
  }

  lemma NameIsAccepted(s: string)
    requires ProperName(s) && '\\' !in s && !Climbs(s)
    ensures SafeRelative(s) == Some(Path(s)) && Place(Path(s)) == [s]
  {
    Untouched(s);
    assert s[0] in s;
    OneName("", s);
    assert "" + s == s;
  }

  lemma ReservedArePlain()
    ensures ProperName(".draft.json") && '\\' !in ".draft.json" && !Climbs(".draft.json")
    ensures ProperName("capture.json") && '\\' !in "capture.json" && !Climbs("capture.json")
  {
  }

  /** The node's own names are accepted from a client too. */
  lemma ReservedNames(marker: string, manifest: string)
    requires marker == ".draft.json" && manifest == "capture.json"
    ensures SafeRelative(marker) == Some(Path(marker)) && Place(Path(marker)) == MARKER && !NamesDirectory(marker)
    ensures SafeRelative(manifest) == Some(Path(manifest)) && Place(Path(manifest)) == MANIFEST &&
      !NamesDirectory(manifest)
  {
    ReservedArePlain();
    NameIsAccepted(marker);
    NameIsAccepted(manifest);
  }
}
