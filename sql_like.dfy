/**
  SQLite's `LIKE` operator as the label and volume filters use it: `%`
  matches any run of characters, `_` matches one character, and every
  other character matches itself up to ASCII case (SQLite folds only the
  letters A-Z by default). No ESCAPE clause is used by the store.
*/
module SqlLike {

  const Percent: char := '%'
  const Underscore: char := '_'

  /** ASCII lower-casing; every other character is left alone. */
  function Fold(c: char): char
  {
    if 'A' <= c <= 'Z' then (c as int + 32) as char else c
  }

  /**
    `s LIKE p`. A pattern without `%` matches only texts of its own
    length.
  */
  predicate Like(s: string, p: string)
    decreases |s| + |p|
    ensures Like(s, p) && Percent !in p ==> |s| == |p|
  {
    if p == [] then s == []
    else if p[0] == Percent then Like(s, p[1..]) || (s != [] && Like(s[1..], p))
    else s != [] && (p[0] == Underscore || Fold(s[0]) == Fold(p[0])) && Like(s[1..], p[1..])
  }

  /** A search text without wildcards, which `LIKE` compares literally (up to case). */
  predicate Literal(w: string)
  {
    Percent !in w && Underscore !in w
  }

  /** `w` is a prefix of `s` up to ASCII case. */
  predicate PrefixCI(w: string, s: string)
  {
    |w| <= |s| && forall i :: 0 <= i < |w| ==> Fold(w[i]) == Fold(s[i])
  }

  /** `w` occurs in `s` up to ASCII case. */
  predicate ContainsCI(s: string, w: string)
  {
    PrefixCI(w, s) || (s != [] && ContainsCI(s[1..], w))
  }

  lemma {:induction false} LikeAnything(s: string)
    ensures Like(s, [Percent])
  {
    if s != [] {
      LikeAnything(s[1..]);
    }
  }

  /** `s LIKE 'w%'` holds exactly when `w` starts `s`. */
  lemma {:induction false} LikePrefix(s: string, w: string)
    requires Literal(w)
    ensures Like(s, w + [Percent]) <==> PrefixCI(w, s)
  {
    if w == [] {
      assert w + [Percent] == [Percent];
      LikeAnything(s);
    } else {
      assert (w + [Percent])[1..] == w[1..] + [Percent];
      if s != [] {
        LikePrefix(s[1..], w[1..]);
        if PrefixCI(w[1..], s[1..]) && Fold(s[0]) == Fold(w[0]) {
          assert PrefixCI(w, s);
        }
      }
    }
  }

  /** The filters' pattern `'%' + w + '%'` matches exactly the texts that contain `w`. */
  lemma {:induction false} LikeContains(s: string, w: string)
    requires Literal(w)
    ensures Like(s, [Percent] + w + [Percent]) <==> ContainsCI(s, w)
  {
    var p := [Percent] + w + [Percent];
    assert p[1..] == w + [Percent];
    LikePrefix(s, w);
    if s != [] {
      LikeContains(s[1..], w);
    }
  }

  /** An exact occurrence of `w` is found, whatever the case of either side. */
  lemma {:induction false} OccurrenceContains(s: string, w: string, i: nat)
    requires i + |w| <= |s| && s[i..i + |w|] == w
    ensures ContainsCI(s, w)
  {
    if i == 0 {
      assert forall k :: 0 <= k < |w| ==> w[k] == s[k];
    } else {
      OccurrenceContains(s[1..], w, i - 1);
    }
  }

  /** `w` occurs in `s` up to case exactly when some window of `s` has the letters of `w` up to case. */
  lemma {:induction false} ContainsWindow(s: string, w: string)
    ensures ContainsCI(s, w) <==> exists i :: 0 <= i <= |s| - |w| && PrefixCI(w, s[i..])
  {
    if s != [] {
      ContainsWindow(s[1..], w);
      if PrefixCI(w, s) {
        assert s[0..] == s;
      }
      if exists i :: 0 <= i <= |s[1..]| - |w| && PrefixCI(w, s[1..][i..]) {
        var i :| 0 <= i <= |s[1..]| - |w| && PrefixCI(w, s[1..][i..]);
        assert s[1..][i..] == s[i + 1..];
      }
      if exists i :: 0 <= i <= |s| - |w| && PrefixCI(w, s[i..]) {
        var i :| 0 <= i <= |s| - |w| && PrefixCI(w, s[i..]);
        if i == 0 {
          assert s[0..] == s;
        } else {
          assert s[1..][i - 1..] == s[i..];
        }
      }
    } else if PrefixCI(w, s) {
      assert s[0..] == s;
    }
  }
}
