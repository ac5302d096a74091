/** The Python `str` operations the core relies on, on `seq<char>`:
    `strip`, `lower`, `split`, `split(sep, 1)`, `join`, `replace`, `in` and
    `isnumeric`. */
module PyStr {

  import opened Model

  /** Python's `str.isspace` for one character. */
  predicate IsSpace(c: char)
  {
    ('\U{0009}' <= c <= '\U{000D}') || ('\U{001C}' <= c <= '\U{0020}') || c == '\U{0085}' || c == '\U{00A0}'
    || c == '\U{1680}' || ('\U{2000}' <= c <= '\U{200A}') || c == '\U{2028}' || c == '\U{2029}'
    || c == '\U{202F}' || c == '\U{205F}' || c == '\U{3000}'
  }

  /** `s.lstrip()`. */
  function TrimLeft(s: string): string
  {
    if s != [] && IsSpace(s[0]) then TrimLeft(s[1..]) else s
  }

  /** `lstrip` drops the leading whitespace, nothing else. */
  lemma {:induction false} TrimLeftSpec(s: string)
    ensures |TrimLeft(s)| <= |s| && TrimLeft(s) == s[|s| - |TrimLeft(s)|..]
    ensures TrimLeft(s) == [] || !IsSpace(TrimLeft(s)[0])
    ensures forall i :: 0 <= i < |s| - |TrimLeft(s)| ==> IsSpace(s[i])
  {
    if s != [] && IsSpace(s[0]) {
      var t := s[1..];
      TrimLeftSpec(t);
      assert TrimLeft(s) == TrimLeft(t);
      assert t[|t| - |TrimLeft(t)|..] == s[|s| - |TrimLeft(t)|..];
      forall i | 0 < i < |s| - |TrimLeft(s)|
        ensures IsSpace(s[i])
      {
        assert s[i] == t[i - 1];
      }
    }
  }

  /** `s.rstrip()`. */
  function TrimRight(s: string): string
  {
    if s != [] && IsSpace(s[|s| - 1]) then TrimRight(s[..|s| - 1]) else s
  }

  /** `rstrip` drops the trailing whitespace, nothing else. */
  lemma {:induction false} TrimRightSpec(s: string)
    ensures |TrimRight(s)| <= |s| && TrimRight(s) == s[..|TrimRight(s)|]
    ensures TrimRight(s) == [] || !IsSpace(TrimRight(s)[|TrimRight(s)| - 1])
    ensures forall i :: |TrimRight(s)| <= i < |s| ==> IsSpace(s[i])
  {
    if s != [] && IsSpace(s[|s| - 1]) {
      var t := s[..|s| - 1];
      TrimRightSpec(t);
      assert TrimRight(s) == TrimRight(t);
      assert t[..|TrimRight(t)|] == s[..|TrimRight(t)|];
      forall i | |TrimRight(s)| <= i < |s| - 1
        ensures IsSpace(s[i])
      {
        assert s[i] == t[i];
      }
    }
  }

  /** `r` is the slice of `s` starting at `i`, and everything of `s` around
      it is whitespace. */
  predicate StrippedAt(s: string, r: string, i: int)
  {
    && 0 <= i <= |s| - |r| && s[i..i + |r|] == r
    && (forall k :: 0 <= k < i ==> IsSpace(s[k]))
    && (forall k :: i + |r| <= k < |s| ==> IsSpace(s[k]))
  }

  /** `s.strip()`: drops the whitespace at both ends. */
  function Strip(s: string): string
  {
    TrimRight(TrimLeft(s))
  }

  /** What `strip` returns is a slice of `s` that neither starts nor ends
      with whitespace, and everything cut off around it is whitespace. */
  lemma StripSpec(s: string)
    ensures exists i :: StrippedAt(s, Strip(s), i)
    ensures Strip(s) == [] || (!IsSpace(Strip(s)[0]) && !IsSpace(Strip(s)[|Strip(s)| - 1]))
  {
    StripSlice(s);
    StripEnds(s);
  }

  lemma StripSlice(s: string)
    ensures StrippedAt(s, Strip(s), |s| - |TrimLeft(s)|)
  {
    var l := TrimLeft(s);
    var i := |s| - |l|;
    var r := TrimRight(l);
    TrimLeftSpec(s);
    TrimRightSpec(l);
    assert s[i..i + |r|] == r by {
      assert l == s[i..] && r == l[..|r|];
    }
    forall k | i + |r| <= k < |s|
      ensures IsSpace(s[k])
    {
      assert s[k] == l[k - i];
    }
  }

  lemma StripEnds(s: string)
    ensures Strip(s) == [] || (!IsSpace(Strip(s)[0]) && !IsSpace(Strip(s)[|Strip(s)| - 1]))
  {
    var l := TrimLeft(s);
    var r := TrimRight(l);
    TrimLeftSpec(s);
    TrimRightSpec(l);
    assert r == [] || r[0] == l[0];
  }

  /** `c.lower()` on the ASCII letters. */
  function LowerChar(c: char): char
  {
    if 'A' <= c <= 'Z' then (c as int + 32) as char else c
  }

  /** `s.lower()`, character by character. */
  function Lower(s: string): (r: string)
  {
    seq(|s|, i requires 0 <= i < |s| => LowerChar(s[i]))
  }

  /** Stripping a stripped string changes nothing. */
  lemma StripIdempotent(s: string)
    ensures Strip(Strip(s)) == Strip(s)
  {
    var r := Strip(s);
    StripSpec(s);
    assert TrimLeft(r) == r;
    assert TrimRight(r) == r;
  }

  /** Lowercasing a lowercased string changes nothing. */
  lemma LowerIdempotent(s: string)
    ensures Lower(Lower(s)) == Lower(s)
  {
  }

  lemma {:induction false} TrimLeftLower(s: string)
    ensures TrimLeft(Lower(s)) == Lower(TrimLeft(s))
  {
    if s != [] {
      var l := Lower(s);
      assert l[0] == LowerChar(s[0]) && (IsSpace(l[0]) <==> IsSpace(s[0]));
      assert l[1..] == Lower(s[1..]);
      TrimLeftLower(s[1..]);
      if !IsSpace(s[0]) {
        assert TrimLeft(l) == l;
      }
    }
  }

  lemma {:induction false} TrimRightLower(s: string)
    ensures TrimRight(Lower(s)) == Lower(TrimRight(s))
  {
    if s != [] {
      assert Lower(s)[..|s| - 1] == Lower(s[..|s| - 1]);
      TrimRightLower(s[..|s| - 1]);
    }
  }

  /** `s.strip().lower()` and `s.lower().strip()` agree: lowercasing never
      turns a character into whitespace or back. */
  lemma StripLower(s: string)
    ensures Strip(Lower(s)) == Lower(Strip(s))
  {
    TrimLeftLower(s);
    TrimRightLower(TrimLeft(s));
  }

  /** The `s.strip().lower()` normalisation of the matchers is idempotent. */
  lemma NormalizeIdempotent(s: string)
    ensures Lower(Strip(Lower(Strip(s)))) == Lower(Strip(s))
  {
    StripLower(Strip(s));
    StripIdempotent(s);
    LowerIdempotent(Strip(s));
  }

  /** `s.split(c)` for a one-character separator: the pieces between the
      occurrences of `c`, empty pieces included. */
  function Split(s: string, c: char): (r: seq<string>)
    ensures |r| >= 1
    ensures forall k :: 0 <= k < |r| ==> c !in r[k]
  {
    if s == [] then [[]]
    else
      var rest := Split(s[1..], c);
      if s[0] == c then [[]] + rest
      else [[s[0]] + rest[0]] + rest[1..]
  }

  /** `sep.join(ws)`. */
  function Join(ws: seq<string>, sep: string): string
  {
    if |ws| == 0 then []
    else if |ws| == 1 then ws[0]
    else ws[0] + sep + Join(ws[1..], sep)
  }

  /** Joining peels off the first piece. */
  lemma JoinCons(w: string, ws: seq<string>, sep: string)
    requires |ws| >= 1
    ensures Join([w] + ws, sep) == w + sep + Join(ws, sep)
  {
    assert ([w] + ws)[1..] == ws;
  }

  /** Joining a concatenation of lists puts the separator between the two joins. */
  lemma {:induction false} JoinAppend(ws: seq<string>, rest: seq<string>, sep: string)
    requires |ws| >= 1 && |rest| >= 1
    ensures Join(ws + rest, sep) == Join(ws, sep) + sep + Join(rest, sep)
  {
    if |ws| == 1 {
      JoinCons(ws[0], rest, sep);
      assert ws + rest == [ws[0]] + rest;
    } else {
      JoinAppend(ws[1..], rest, sep);
      assert ws + rest == [ws[0]] + (ws[1..] + rest);
      JoinCons(ws[0], ws[1..] + rest, sep);
      JoinCons(ws[0], ws[1..], sep);
      assert [ws[0]] + ws[1..] == ws;
    }
  }

  /** Joining the pieces of a split with the separator gives the string back. */
  lemma {:induction false} JoinSplit(s: string, c: char)
    ensures Join(Split(s, c), [c]) == s
  {
    if s != [] {
      var rest := Split(s[1..], c);
      JoinSplit(s[1..], c);
      if s[0] == c {
        assert Split(s, c) == [[]] + rest;
        assert Join([[]] + rest, [c]) == [] + [c] + Join(rest, [c]);
      } else {
        var r := Split(s, c);
        assert r == [[s[0]] + rest[0]] + rest[1..];
        if |rest| == 1 {
          assert Join(r, [c]) == [s[0]] + rest[0];
        } else {
          assert r[1..] == rest[1..];
          assert Join(r, [c]) == [s[0]] + rest[0] + [c] + Join(rest[1..], [c]);
          assert Join(rest, [c]) == rest[0] + [c] + Join(rest[1..], [c]);
        }
      }
    }
  }

  /** Splitting a join of separator-free pieces gives the pieces back. */
  lemma {:induction false} SplitJoin(ws: seq<string>, c: char)
    requires |ws| >= 1
    requires forall k :: 0 <= k < |ws| ==> c !in ws[k]
    ensures Split(Join(ws, [c]), c) == ws
  {
    if |ws| == 1 {
      SplitFree(ws[0], c);
    } else {
      SplitJoin(ws[1..], c);
      SplitPrefix(ws[0], Join(ws[1..], [c]), c);
      assert Join(ws, [c]) == ws[0] + ([c] + Join(ws[1..], [c]));
      assert [ws[0]] + ws[1..] == ws;
    }
  }

  /** A string without the separator splits into itself alone. */
  lemma {:induction false} SplitFree(s: string, c: char)
    requires c !in s
    ensures Split(s, c) == [s]
  {
    if s != [] {
      SplitFree(s[1..], c);
      assert [s[0]] + s[1..] == s;
    }
  }

  /** Splitting `w + [c] + t` for a separator-free `w` peels `w` off. */
  lemma {:induction false} SplitPrefix(w: string, t: string, c: char)
    requires c !in w
    ensures Split(w + [c] + t, c) == [w] + Split(t, c)
  {
    if w == [] {
      assert w + [c] + t == [c] + t;
      assert ([c] + t)[1..] == t;
    } else {
      SplitPrefix(w[1..], t, c);
      var s := w + [c] + t;
      assert s[1..] == w[1..] + [c] + t;
      assert [w[0]] + w[1..] == w;
    }
  }

  /** The position of the first `c` in `s`, if any. */
  function FirstIndex(s: string, c: char): (r: Option<nat>)
    ensures r.None? <==> c !in s
    ensures r.Some? ==> r.value < |s| && s[r.value] == c && c !in s[..r.value]
  {
    if s == [] then None
    else if s[0] == c then Some(0)
    else
      match FirstIndex(s[1..], c)
      case None => None
      case Some(i) => assert s[1..][..i] == s[1..i + 1]; Some(i + 1)
  }

  /** `s.split(c, 1)`: the text before the first `c` and, when there is one,
      the text after it. */
  function SplitOnce(s: string, c: char): (r: (string, Option<string>))
    ensures c !in r.0
    ensures r.1.None? ==> r.0 == s
    ensures r.1.Some? ==> r.0 + [c] + r.1.value == s
  {
    match FirstIndex(s, c)
    case None => (s, None)
    case Some(i) => assert s[..i] + [c] + s[i + 1..] == s; (s[..i], Some(s[i + 1..]))
  }

  /** The split is determined by the first `c`: a text that starts with a
      `c`-free part followed by `c` splits there. */
  lemma SplitOnceAt(w: string, c: char, rest: string)
    requires c !in w
    ensures SplitOnce(w + [c] + rest, c) == (w, Some(rest))
  {
    var s := w + [c] + rest;
    assert s[..|w|] == w && s[|w|] == c && s[|w| + 1..] == rest;
    assert forall j :: 0 <= j < |w| ==> s[j] == w[j] != c;
    forall j | |w| < j <= |s|
      ensures c in s[..j]
    {
      assert s[..j][|w|] == c;
    }
    assert FirstIndex(s, c) == Some(|w|);
  }

  predicate IsPrefix(p: string, s: string)
  {
    |p| <= |s| && s[..|p|] == p
  }

  /** Python's `sub in s`. */
  predicate Contains(s: string, sub: string)
  {
    IsPrefix(sub, s) || (s != [] && Contains(s[1..], sub))
  }

  predicate OccursAt(s: string, sub: string, i: int)
  {
    0 <= i <= |s| - |sub| && s[i..i + |sub|] == sub
  }

  /** `sub in s` holds exactly when `sub` occurs at some position of `s`. */
  lemma {:induction false} ContainsAt(s: string, sub: string)
    ensures Contains(s, sub) <==> exists i :: OccursAt(s, sub, i)
  {
    if s == [] {
      if IsPrefix(sub, s) {
        assert OccursAt(s, sub, 0);
      }
      if exists i :: OccursAt(s, sub, i) {
        var i :| OccursAt(s, sub, i);
        assert IsPrefix(sub, s);
      }
    } else {
      ContainsAt(s[1..], sub);
      if IsPrefix(sub, s) {
        assert OccursAt(s, sub, 0);
      } else if Contains(s[1..], sub) {
        var i :| OccursAt(s[1..], sub, i);
        assert s[i + 1..i + 1 + |sub|] == s[1..][i..i + |sub|];
        assert OccursAt(s, sub, i + 1);
      }
      if exists i :: OccursAt(s, sub, i) {
        var i :| OccursAt(s, sub, i);
        if i > 0 {
          assert s[1..][i - 1..i - 1 + |sub|] == s[i..i + |sub|];
          assert OccursAt(s[1..], sub, i - 1);
        } else {
          assert IsPrefix(sub, s);
        }
      }
    }
  }

  /** Python's `s.replace(pat, rep)`: every occurrence of `pat`, scanned left
      to right without overlap, becomes `rep`. */
  function Replace(s: string, pat: string, rep: string): string
    requires |pat| > 0
  {
    if |s| < |pat| then s
    else if s[..|pat|] == pat then rep + Replace(s[|pat|..], pat, rep)
    else [s[0]] + Replace(s[1..], pat, rep)
  }

  /** A string that does not contain `pat` is left alone by `replace`. */
  lemma {:induction false} ReplaceAbsent(s: string, pat: string, rep: string)
    requires |pat| > 0 && !Contains(s, pat)
    ensures Replace(s, pat, rep) == s
  {
    if |s| >= |pat| {
      assert !IsPrefix(pat, s);
      ReplaceAbsent(s[1..], pat, rep);
      assert [s[0]] + s[1..] == s;
    }
  }

  /** `s.isnumeric()` on ASCII input: non-empty and all digits. */
  predicate IsNumeric(s: string)
  {
    |s| > 0 && forall k :: 0 <= k < |s| ==> '0' <= s[k] <= '9'
  }
}
