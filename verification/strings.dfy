/** The two operations of Go's `strings` package the bot relies on:
    `strings.Contains` and `strings.ReplaceAll` with the fixed pair `\u0026` -> `&`. */
module Strings {

  /** `sub` occurs in `s` starting at index `i`. */
  ghost predicate OccursAt(s: string, sub: string, i: int) {
    0 <= i && i + |sub| <= |s| && s[i..i + |sub|] == sub
  }

  /** Each character of an occurrence is the matching character of `sub`. */
  lemma CharOfOccurrence(s: string, sub: string, i: int, k: int)
    requires OccursAt(s, sub, i) && 0 <= k < |sub|
    ensures s[i + k] == sub[k]
  {
    assert s[i..i + |sub|][k] == sub[k];
  }

  /** `s` begins with `p`. */
  predicate StartsWith(s: string, p: string) {
    |p| <= |s| && s[..|p|] == p
  }

  /** Go's `strings.Contains`: a left-to-right scan for `sub`. */
  function Contains(s: string, sub: string): (b: bool)
    decreases |s|
  {
    if StartsWith(s, sub) then true
    else if |s| == 0 then false
    else Contains(s[1..], sub)
  }

  lemma OccursAtTail(s: string, sub: string, i: int)
    requires |s| > 0 && 0 <= i
    ensures OccursAt(s[1..], sub, i) <==> OccursAt(s, sub, i + 1)
  {
    if i + |sub| <= |s[1..]| {
      assert s[1..][i..i + |sub|] == s[i + 1..i + 1 + |sub|];
    }
  }

  /** `Contains` holds exactly when `sub` occurs somewhere in `s`. */
  lemma {:induction false} ContainsIff(s: string, sub: string)
    ensures Contains(s, sub) <==> exists i :: OccursAt(s, sub, i)
    decreases |s|
  {
    if StartsWith(s, sub) {
      assert OccursAt(s, sub, 0);
    } else if |s| == 0 {
      forall i | OccursAt(s, sub, i) ensures false {
      }
    } else {
      ContainsIff(s[1..], sub);
      if Contains(s[1..], sub) {
        var i :| OccursAt(s[1..], sub, i);
        OccursAtTail(s, sub, i);
      } else {
        forall i | OccursAt(s, sub, i) ensures false {
          if i > 0 {
            OccursAtTail(s, sub, i - 1);
          }
        }
      }
    }
  }

  /** The JSON escape the scraper undoes, `\u0026`. */
  const AmpEscape: string := "\\u0026"

  /** Go's `strings.ReplaceAll(s, "\\u0026", "&")`: scan left to right and replace
      each non-overlapping occurrence of the escape by `&`. */
  function UnescapeAmp(s: string): (r: string)
    decreases |s|
  {
    if StartsWith(s, AmpEscape) then "&" + UnescapeAmp(s[|AmpEscape|..])
    else if |s| == 0 then ""
    else [s[0]] + UnescapeAmp(s[1..])
  }

  /** The inverse direction: write every `&` as the escape. */
  function EscapeAmp(s: string): (r: string)
    ensures '&' !in r
    decreases |s|
  {
    if |s| == 0 then ""
    else (if s[0] == '&' then AmpEscape else [s[0]]) + EscapeAmp(s[1..])
  }

  /** Undoing the escape and writing `&` back as the escape gives the input with its `&`
      escaped, whatever the input holds: every escape is turned into `&` and no other
      character moves. For an input without a bare `&` this is the input itself. */
  lemma {:induction false} EscapeUnescape(s: string)
    ensures EscapeAmp(UnescapeAmp(s)) == EscapeAmp(s)
    ensures '&' !in s ==> EscapeAmp(UnescapeAmp(s)) == s
    decreases |s|
  {
    if StartsWith(s, AmpEscape) {
      var rest := s[|AmpEscape|..];
      assert EscapeAmp(UnescapeAmp(s)) == EscapeAmp(s) by {
        EscapeUnescape(rest);
        assert s == AmpEscape + rest;
        EscapeAmpNoAmp(AmpEscape);
        calc {
          EscapeAmp(UnescapeAmp(s));
          EscapeAmp("&" + UnescapeAmp(rest));
          { EscapeConcat("&", UnescapeAmp(rest)); }
          AmpEscape + EscapeAmp(rest);
          { EscapeConcat(AmpEscape, rest); }
          EscapeAmp(s);
        }
      }
    } else if |s| > 0 {
      var rest := s[1..];
      assert EscapeAmp(UnescapeAmp(s)) == EscapeAmp(s) by {
        EscapeUnescape(rest);
        assert s == [s[0]] + rest;
        calc {
          EscapeAmp(UnescapeAmp(s));
          EscapeAmp([s[0]] + UnescapeAmp(rest));
          { EscapeConcat([s[0]], UnescapeAmp(rest)); }
          EscapeAmp([s[0]]) + EscapeAmp(rest);
          { EscapeConcat([s[0]], rest); }
          EscapeAmp(s);
        }
      }
    }
    if '&' !in s {
      EscapeAmpNoAmp(s);
    }
  }

  /** Writing `&` as the escape leaves a string without `&` unchanged. */
  lemma {:induction false} EscapeAmpNoAmp(s: string)
    requires '&' !in s
    ensures EscapeAmp(s) == s
    decreases |s|
  {
    if |s| > 0 {
      assert '&' !in s[1..] by {
        forall k | 0 <= k < |s[1..]| ensures s[1..][k] != '&' {
          assert s[1..][k] == s[k + 1];
        }
      }
      EscapeAmpNoAmp(s[1..]);
      assert s == [s[0]] + s[1..];
    }
  }

  lemma {:induction false} EscapeConcat(a: string, b: string)
    ensures EscapeAmp(a + b) == EscapeAmp(a) + EscapeAmp(b)
    decreases |a|
  {
    if |a| == 0 {
      assert a + b == b;
    } else {
      assert (a + b)[1..] == a[1..] + b;
      EscapeConcat(a[1..], b);
    }
  }

  /** A string holding no escape passes through unchanged (`\/` included). */
  lemma {:induction false} UnescapeNoEscape(s: string)
    requires forall i :: !OccursAt(s, AmpEscape, i)
    ensures UnescapeAmp(s) == s
    decreases |s|
  {
    if StartsWith(s, AmpEscape) {
      assert OccursAt(s, AmpEscape, 0);
    } else if |s| == 0 {
    } else {
      forall i ensures !OccursAt(s[1..], AmpEscape, i) {
        if 0 <= i {
          OccursAtTail(s, AmpEscape, i);
        }
      }
      UnescapeNoEscape(s[1..]);
      assert s == [s[0]] + s[1..];
    }
  }

  /** A stretch without a backslash cannot hold the escape and is copied unchanged. */
  lemma {:induction false} UnescapePlain(a: string, b: string)
    requires '\\' !in a
    ensures UnescapeAmp(a + b) == a + UnescapeAmp(b)
    decreases |a|
  {
    if |a| > 0 {
      var s := a + b;
      assert s[0] == a[0] && s[0] != AmpEscape[0];
      assert s[1..] == a[1..] + b;
      assert '\\' !in a[1..] by {
        forall k | 0 <= k < |a[1..]| ensures a[1..][k] != '\\' {
          assert a[1..][k] == a[k + 1];
        }
      }
      UnescapePlain(a[1..], b);
      assert a == [a[0]] + a[1..];
    } else {
      assert a + b == b;
    }
  }

  /** An escaped slash as JSON writes it, `\/`. */
  const EscapedSlash: string := "\\/"

  /** An escaped slash `\/` is not the `\u0026` escape and is copied unchanged. */
  lemma UnescapeKeepsEscapedSlash(b: string)
    ensures UnescapeAmp(EscapedSlash + b) == EscapedSlash + UnescapeAmp(b)
  {
    var s := EscapedSlash + b;
    assert s[1] == '/' && !StartsWith(s, AmpEscape);
    assert s[1..] == "/" + b;
    UnescapePlain("/", b);
  }

  /** A URL shaped like the ones the page holds, `h\/\/x\/q` + escape + `t` with no
      backslash in `h`, `x`, `q` or `t`: the escaped slashes stay as they are and only the
      escaped `&` is rewritten. */
  lemma {:induction false} EscapedUrlShape(h: string, x: string, q: string, t: string)
    requires '\\' !in h && '\\' !in x && '\\' !in q && '\\' !in t
    ensures UnescapeAmp(h + (EscapedSlash + (EscapedSlash + (x + (EscapedSlash + (q + (AmpEscape + t)))))))
      == h + (EscapedSlash + (EscapedSlash + (x + (EscapedSlash + (q + ("&" + t))))))
  {
    assert UnescapeAmp(t) == t by {
      UnescapePlain(t, "");
      assert t + "" == t;
    }
    var t3 := AmpEscape + t;
    assert UnescapeAmp(t3) == "&" + t by {
      UnescapeRewritesEscape(t);
    }
    var t2 := q + t3;
    var u2 := q + ("&" + t);
    assert UnescapeAmp(t2) == u2 by {
      UnescapePlain(q, t3);
    }
    var t1 := EscapedSlash + t2;
    var u1 := EscapedSlash + u2;
    assert UnescapeAmp(t1) == u1 by {
      UnescapeKeepsEscapedSlash(t2);
    }
    var t0 := x + t1;
    var u0 := x + u1;
    assert UnescapeAmp(t0) == u0 by {
      UnescapePlain(x, t1);
    }
    var tm := EscapedSlash + t0;
    var um := EscapedSlash + u0;
    assert UnescapeAmp(tm) == um by {
      UnescapeKeepsEscapedSlash(t0);
    }
    var tl := EscapedSlash + tm;
    var ul := EscapedSlash + um;
    assert UnescapeAmp(tl) == ul by {
      UnescapeKeepsEscapedSlash(tm);
    }
    UnescapePlain(h, tl);
  }

  /** A download URL as the page spells it: `https:\/\/x\/y?a=1`, the escape, `b=2`. */
  lemma EscapedUrlExample()
    ensures UnescapeAmp("https:" + EscapedSlash + EscapedSlash + "x" + EscapedSlash + "y?a=1" + AmpEscape + "b=2")
      == "https:" + EscapedSlash + EscapedSlash + "x" + EscapedSlash + "y?a=1&b=2"
  {
    EscapedUrlShape("https:", "x", "y?a=1", "b=2");
    Regroup("https:", EscapedSlash, EscapedSlash, "x", EscapedSlash, "y?a=1", AmpEscape, "b=2");
    Regroup("https:", EscapedSlash, EscapedSlash, "x", EscapedSlash, "y?a=1", "&", "b=2");
    assert "y?a=1" + "&" + "b=2" == "y?a=1&b=2";
  }

  /** Concatenation regrouped to the right. */
  lemma Regroup(a: string, b: string, c: string, d: string, e: string, f: string, g: string, h: string)
    ensures a + b + c + d + e + f + g + h == a + (b + (c + (d + (e + (f + (g + h))))))
  {
  }

  /** The escape itself becomes `&`, and the scan continues right after it. */
  lemma UnescapeRewritesEscape(b: string)
    ensures UnescapeAmp(AmpEscape + b) == "&" + UnescapeAmp(b)
  {
    var s := AmpEscape + b;
    assert StartsWith(s, AmpEscape);
    assert s[|AmpEscape|..] == b;
  }

  /** A prefix of the output free of `&` was copied from the input unchanged. */
  lemma {:induction false} UnescapePrefix(t: string, p: string)
    requires StartsWith(UnescapeAmp(t), p) && '&' !in p
    ensures StartsWith(t, p)
    decreases |p|
  {
    if |p| > 0 {
      var u := UnescapeAmp(t);
      assert u[0] == p[0];
      if !StartsWith(t, AmpEscape) && |t| > 0 {
        var rest := UnescapeAmp(t[1..]);
        assert u == [t[0]] + rest;
        assert StartsWith(rest, p[1..]) by {
          assert rest[..|p| - 1] == u[1..|p|];
          assert u[1..|p|] == p[1..];
        }
        assert '&' !in p[1..] by {
          forall k | 0 <= k < |p[1..]| ensures p[1..][k] != '&' {
            assert p[1..][k] == p[k + 1];
          }
        }
        UnescapePrefix(t[1..], p[1..]);
        assert t[..|p|] == [t[0]] + t[1..][..|p| - 1];
      }
    }
  }

  /** Every escape is rewritten: none is left in the output, even one that the rewrite
      of its neighbours could have put together. */
  lemma {:induction false} UnescapeLeavesNoEscape(s: string)
    ensures forall i :: !OccursAt(UnescapeAmp(s), AmpEscape, i)
    decreases |s|
  {
    var r := UnescapeAmp(s);
    if StartsWith(s, AmpEscape) {
      var rest := s[|AmpEscape|..];
      UnescapeLeavesNoEscape(rest);
      assert r[1..] == UnescapeAmp(rest);
      forall i | OccursAt(r, AmpEscape, i) ensures false {
        if i == 0 {
          CharOfOccurrence(r, AmpEscape, 0, 0);
        } else {
          OccursAtTail(r, AmpEscape, i - 1);
        }
      }
    } else if |s| == 0 {
    } else {
      var rest := UnescapeAmp(s[1..]);
      UnescapeLeavesNoEscape(s[1..]);
      assert r == [s[0]] + rest;
      assert r[1..] == rest;
      forall i | OccursAt(r, AmpEscape, i) ensures false {
        if i == 0 {
          var tailPat := AmpEscape[1..];
          assert StartsWith(rest, tailPat) by {
            assert r[..|AmpEscape|] == AmpEscape;
            assert rest[..|tailPat|] == r[1..|AmpEscape|];
          }
          CharOfOccurrence(r, AmpEscape, 0, 0);
          UnescapePrefix(s[1..], tailPat);
        } else {
          OccursAtTail(r, AmpEscape, i - 1);
        }
      }
    }
  }
}
