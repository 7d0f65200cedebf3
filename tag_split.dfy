/**
  Splitting a repository tag such as `app:1.0` on `:`, as Go's
  `strings.Split(tag, ":")` does: every separator ends a field, so the
  result has one field more than the tag has colons.
*/
module TagSplit {

  const Colon: char := ':'

  /** The number of colons in `s`. */
  function Colons(s: string): nat
  {
    if s == [] then 0 else (if s[0] == Colon then 1 else 0) + Colons(s[1..])
  }

  /** `strings.Split(s, ":")`. */
  function Split(s: string): (r: seq<string>)
    ensures |r| == Colons(s) + 1
    ensures forall i :: 0 <= i < |r| ==> Colon !in r[i]
  {
    if s == [] then [""]
    else
      var rest := Split(s[1..]);
      if s[0] == Colon then [""] + rest
      else [[s[0]] + rest[0]] + rest[1..]
  }

  /** `strings.Join(fields, ":")`, the inverse of `Split`. */
  function Join(fields: seq<string>): string
    requires |fields| >= 1
  {
    if |fields| == 1 then fields[0] else fields[0] + [Colon] + Join(fields[1..])
  }

  lemma {:induction false} ColonsIff(s: string)
    ensures Colons(s) > 0 <==> Colon in s
  {
    if s != [] {
      ColonsIff(s[1..]);
      assert s == [s[0]] + s[1..];
    }
  }

  /** Splitting loses nothing: joining the fields with `:` gives the tag back. */
  lemma {:induction false} JoinSplit(s: string)
    ensures Join(Split(s)) == s
  {
    if s != [] {
      var rest := Split(s[1..]);
      JoinSplit(s[1..]);
      if s[0] == Colon {
        assert Split(s) == [""] + rest;
        assert Join(Split(s)) == "" + [Colon] + Join(rest);
      } else if |rest| == 1 {
        assert Split(s) == [[s[0]] + rest[0]];
      } else {
        assert Split(s) == [[s[0]] + rest[0]] + rest[1..];
        assert (Split(s))[1..] == rest[1..];
        assert Join(rest) == rest[0] + [Colon] + Join(rest[1..]);
      }
    }
  }

  /** The `Name` of a tag: field 0 of the split, the text before the first colon. */
  function TagName(t: string): (r: string)
    ensures Colon !in r
    ensures |r| <= |t| && t[..|r|] == r
    ensures |r| == |t| || t[|r|] == Colon
  {
    var f := Split(t);
    JoinSplit(t);
    if |f| == 1 then f[0]
    else
      assert t == f[0] + [Colon] + Join(f[1..]);
      f[0]
  }

  /** The `Version` of a tag: field 1 of the split, which exists only when the tag has a colon. */
  function TagVersion(t: string): (r: string)
    requires Colon in t
    ensures Colon !in r && |TagName(t)| + 1 + |r| <= |t|
  {
    ColonsIff(t);
    var f := Split(t);
    JoinSplit(t);
    assert t == f[0] + [Colon] + Join(f[1..]);
    if |f| == 2 then
      assert Join(f[1..]) == f[1];
      f[1]
    else
      assert Join(f[1..]) == f[1] + [Colon] + Join(f[2..]);
      f[1]
  }

  /**
    What name and version are: the tag starts with `name:version`, neither
    part contains a colon, and when the tag has exactly one colon the tag
    is exactly `name:version`.
  */
  lemma {:induction false} TagParts(t: string)
    requires Colon in t
    ensures Colon !in TagName(t) && Colon !in TagVersion(t)
    ensures |TagName(t)| < |t| && t[..|TagName(t)|] == TagName(t) && t[|TagName(t)|] == Colon
    ensures var rest := t[|TagName(t)| + 1..];
      && |TagVersion(t)| <= |rest| && rest[..|TagVersion(t)|] == TagVersion(t)
      && (|TagVersion(t)| == |rest| || rest[|TagVersion(t)|] == Colon)
    ensures Colons(t) == 1 <==> t == TagName(t) + [Colon] + TagVersion(t)
  {
    ColonsIff(t);
    var f := Split(t);
    JoinSplit(t);
    assert t == f[0] + [Colon] + Join(f[1..]);
    assert t[|f[0]| + 1..] == Join(f[1..]);
    if |f| == 2 {
      assert Join(f[1..]) == f[1];
    } else {
      assert Join(f[1..]) == f[1] + [Colon] + Join(f[2..]);
      assert |t| > |f[0]| + 1 + |f[1]|;
    }
  }
}
