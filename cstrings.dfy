/**
 * C-string comparisons over byte strings, shared by the two readers that
 * keep a current path (include/xstream.h and xstream.h): strncmp, the
 * path match of match_internal, and the fact that a scanned tag name has
 * no NUL in it, so these comparisons see all of it.
 */
module CStrings {
  import opened ByteText

  /** strncmp(a, b, n) == 0 on NUL-terminated byte strings. */
  function StrNEqual(a: Bytes, b: Bytes, n: nat): bool
    requires |a| >= 1 && a[|a| - 1] == '\0' && |b| >= 1 && b[|b| - 1] == '\0'
    decreases n
  {
    if n == 0 then true
    else if a[0] != b[0] then false
    else if a[0] == '\0' then true
    else StrNEqual(a[1..], b[1..], n - 1)
  }

  /** match_internal (include/xstream.h 364-377, xstream.h 212-224) for the
      C string path against the current path cp: strncmp over |cp| bytes,
      then a terminator or one '/' and a terminator. */
  function MatchInternal(path: Bytes, cp: Bytes): bool
  {
    var pz := path + ['\0'];
    var n := |cp|;
    StrNEqual(pz, cp + ['\0'], n)
    && ((n < |pz| && pz[n] == '\0') || (n + 1 < |pz| && pz[n] == '/' && pz[n + 1] == '\0'))
  }

  /** A tag name has no NUL: it starts with a name byte or '?' and runs
      over name bytes. */
  lemma TagNameNulFree(buf: Bytes, n0: nat)
    requires n0 < |buf| && (IsSymF(buf[n0]) || buf[n0] == '?')
    ensures '\0' !in buf[n0..SymEnd(buf, n0 + 1)]
  {
    var e := SymEnd(buf, n0 + 1);
    forall k | n0 <= k < e
      ensures buf[k] != '\0'
    {
      if k > n0 {
        assert IsSym(buf[k]);
      }
    }
  }

  /** strncmp of two terminated strings without inner NULs compares their
      first n bytes, and fails if the first one is shorter. */
  lemma {:induction false} StrNEqualMeaning(x: Bytes, y: Bytes, n: nat)
    requires '\0' !in x && '\0' !in y && n <= |y|
    ensures StrNEqual(x + ['\0'], y + ['\0'], n) <==> n <= |x| && x[..n] == y[..n]
    decreases n
  {
    var a := x + ['\0'];
    var b := y + ['\0'];
    if n > 0 {
      if |x| == 0 {
        assert a[0] == '\0' && b[0] == y[0];
      } else if x[0] == y[0] {
        assert a[0] == x[0] && b[0] == y[0] && x[0] != '\0';
        assert a[1..] == x[1..] + ['\0'];
        assert b[1..] == y[1..] + ['\0'];
        StrNEqualMeaning(x[1..], y[1..], n - 1);
        assert StrNEqual(a, b, n) == StrNEqual(a[1..], b[1..], n - 1);
        if n <= |x| {
          assert x[..n] == [x[0]] + x[1..][..n - 1];
          assert y[..n] == [y[0]] + y[1..][..n - 1];
          if x[..n] == y[..n] {
            assert x[1..][..n - 1] == x[..n][1..];
          }
        }
      } else {
        assert a[0] == x[0] && b[0] == y[0];
        if n <= |x| {
          assert x[..n][0] == x[0] && y[..n][0] == y[0];
        }
      }
    }
  }

  /** match_internal holds exactly when the pattern is the path, or the
      path followed by one '/'. */
  lemma MatchInternalMeaning(path: Bytes, cp: Bytes)
    requires '\0' !in path && '\0' !in cp
    ensures MatchInternal(path, cp) <==> path == cp || path == cp + "/"
  {
    var n := |cp|;
    var pz := path + ['\0'];
    StrNEqualMeaning(path, cp, n);
    assert cp[..n] == cp;
    if path == cp + "/" {
      assert path[..n] == cp && pz[n] == '/' && pz[n + 1] == '\0';
    }
    if n + 1 < |pz| && pz[n] == '/' && pz[n + 1] == '\0' && n <= |path| && path[..n] == cp {
      assert |path| == n + 1;
      assert path == path[..n] + [path[n]];
    }
    if n < |pz| && pz[n] == '\0' && n <= |path| && path[..n] == cp {
      assert |path| == n;
    }
  }
}
