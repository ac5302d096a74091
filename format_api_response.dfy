/** `format_api_response`: turns one record of the tourism search into the
    six-line text block handed on for reply generation, after cleaning the
    free-text fields of newlines, HTML tags and non-ASCII characters. */
module FormatApiResponse {

  import opened Model
  import opened PyStr

  // ---------------------------------------------------------------------
  // Subsequences
  // ---------------------------------------------------------------------

  /** `a` is `b` with some characters deleted, the rest in order. */
  predicate IsSubseq(a: string, b: string)
    decreases |b|
  {
    a == [] || (b != [] && ((a[0] == b[0] && IsSubseq(a[1..], b[1..])) || IsSubseq(a, b[1..])))
  }

  lemma {:induction false} SubseqMembers(a: string, b: string)
    requires IsSubseq(a, b)
    ensures forall c :: c in a ==> c in b
    decreases |b|
  {
    if a != [] {
      if a[0] == b[0] && IsSubseq(a[1..], b[1..]) {
        SubseqMembers(a[1..], b[1..]);
        assert a == [a[0]] + a[1..];
      } else {
        SubseqMembers(a, b[1..]);
      }
    }
  }

  lemma {:induction false} SubseqRefl(a: string)
    ensures IsSubseq(a, a)
  {
    if a != [] {
      SubseqRefl(a[1..]);
    }
  }

  lemma {:induction false} SubseqTrans(a: string, b: string, c: string)
    requires IsSubseq(a, b) && IsSubseq(b, c)
    ensures IsSubseq(a, c)
    decreases |c|
  {
    if a != [] {
      assert b != [] && c != [];
      if b[0] == c[0] && IsSubseq(b[1..], c[1..]) {
        if a[0] == b[0] && IsSubseq(a[1..], b[1..]) {
          SubseqTrans(a[1..], b[1..], c[1..]);
        } else {
          SubseqTrans(a, b[1..], c[1..]);
        }
      } else {
        SubseqTrans(a, b, c[1..]);
      }
    }
  }

  /** Dropping the front of `b` keeps `a` a subsequence. */
  lemma {:induction false} SubseqSuffix(a: string, b: string, k: nat)
    requires k <= |b| && IsSubseq(a, b[k..])
    ensures IsSubseq(a, b)
    decreases k
  {
    if k > 0 {
      assert b[1..][k - 1..] == b[k..];
      SubseqSuffix(a, b[1..], k - 1);
    }
  }

  // ---------------------------------------------------------------------
  // Newlines
  // ---------------------------------------------------------------------

  /** `s.replace("\n", " ")`. */
  function ReplaceNewlines(s: string): (r: string)
  {
    Replace(s, "\n", " ")
  }

  /** Every newline becomes a space and nothing else changes. */
  lemma {:induction false} ReplaceNewlinesSpec(s: string)
    ensures |ReplaceNewlines(s)| == |s|
    ensures forall k :: 0 <= k < |s| ==> ReplaceNewlines(s)[k] == (if s[k] == '\n' then ' ' else s[k])
    ensures '\n' !in ReplaceNewlines(s)
  {
    if s != [] {
      ReplaceNewlinesSpec(s[1..]);
      var r, rest := ReplaceNewlines(s), ReplaceNewlines(s[1..]);
      assert r == [if s[0] == '\n' then ' ' else s[0]] + rest;
      forall k | 0 <= k < |s| ensures r[k] == (if s[k] == '\n' then ' ' else s[k]) {
        if k > 0 {
          assert r[k] == rest[k - 1] && s[1..][k - 1] == s[k];
        }
      }
    }
  }

  // ---------------------------------------------------------------------
  // HTML tags
  // ---------------------------------------------------------------------

  /** Where `.*?>` matches at the start of `t`: the nearest `>`, provided no
      newline comes first (`.` does not match a newline). */
  function TagEnd(t: string): (r: Option<nat>)
    ensures r.Some? ==> r.value < |t| && t[r.value] == '>' && '>' !in t[..r.value] && '\n' !in t[..r.value]
    ensures r.None? ==> forall k :: 0 <= k < |t| && t[k] == '>' ==> '\n' in t[..k]
  {
    if t == [] then None
    else if t[0] == '>' then Some(0)
    else if t[0] == '\n' then None
    else
      match TagEnd(t[1..])
      case None =>
        assert forall k :: 1 <= k < |t| ==> t[1..][..k - 1] == t[1..k];
        None
      case Some(k) =>
        assert t[..k + 1] == [t[0]] + t[1..][..k];
        Some(k + 1)
  }

  /** `re.sub(r"<.*?>", "", s)`: scanning left to right, each `<` that has a
      `>` after it on the same line starts a span up to the nearest such
      `>`, and the span is deleted; everything else is kept in order. */
  function StripTags(s: string): (r: string)
    decreases |s|
  {
    if s == [] then []
    else if s[0] == '<' && TagEnd(s[1..]).Some? then StripTags(s[TagEnd(s[1..]).value + 2..])
    else [s[0]] + StripTags(s[1..])
  }

  /** No `<` of `r` is followed, anywhere later, by a `>`: on a single line
      this is "the pattern `<.*?>` matches nowhere in `r`". */
  predicate NoTag(r: string)
  {
    forall i, j :: 0 <= i < j < |r| && r[i] == '<' ==> r[j] != '>'
  }

  /** Tag stripping only deletes characters. */
  lemma {:induction false} StripTagsSubseq(s: string)
    ensures IsSubseq(StripTags(s), s)
    decreases |s|
  {
    if s != [] {
      if s[0] == '<' && TagEnd(s[1..]).Some? {
        var k := TagEnd(s[1..]).value + 2;
        StripTagsSubseq(s[k..]);
        SubseqSuffix(StripTags(s), s, k);
      } else {
        StripTagsSubseq(s[1..]);
      }
    }
  }

  /** Text without a `<` is left alone. */
  lemma {:induction false} StripTagsNoOpen(s: string)
    requires '<' !in s
    ensures StripTags(s) == s
  {
    if s != [] {
      StripTagsNoOpen(s[1..]);
      assert [s[0]] + s[1..] == s;
    }
  }

  /** Text without a `>` has no tag to match, whatever `<` it holds. */
  lemma {:induction false} StripTagsNoClose(s: string)
    requires '>' !in s
    ensures StripTags(s) == s
  {
    if s != [] {
      assert forall c :: c in s[1..] ==> c in s;
      StripTagsNoClose(s[1..]);
      assert [s[0]] + s[1..] == s;
    }
  }

  /** The match of `.*?>` ends at the first `>` of a single line. */
  lemma {:induction false} TagEndAt(t: string, q: string)
    requires '>' !in t && '\n' !in t
    ensures TagEnd(t + ['>'] + q) == Some(|t|)
  {
    if t != [] {
      TagEndAt(t[1..], q);
      assert (t + ['>'] + q)[1..] == t[1..] + ['>'] + q;
    }
  }

  /** The span from the first `<` to the nearest `>` after it, on one line,
      disappears, and the text before it stays as it is. */
  lemma {:induction false} StripTagsSpan(p: string, t: string, q: string)
    requires '<' !in p && '>' !in t && '\n' !in t
    ensures StripTags(p + ['<'] + t + ['>'] + q) == p + StripTags(q)
  {
    var s := p + ['<'] + t + ['>'] + q;
    if p == [] {
      assert s[1..] == t + ['>'] + q;
      TagEndAt(t, q);
      assert s[|t| + 2..] == q;
    } else {
      StripTagsSpan(p[1..], t, q);
      assert s[1..] == p[1..] + ['<'] + t + ['>'] + q;
      assert [p[0]] + p[1..] == p;
    }
  }

  /** Without newlines, no tag is left after stripping. */
  lemma {:induction false} StripTagsNoTag(s: string)
    requires '\n' !in s
    ensures NoTag(StripTags(s))
    decreases |s|
  {
    if s != [] {
      var r := StripTags(s);
      if s[0] == '<' && TagEnd(s[1..]).Some? {
        var k := TagEnd(s[1..]).value + 2;
        assert forall c :: c in s[k..] ==> c in s;
        StripTagsNoTag(s[k..]);
      } else {
        assert forall c :: c in s[1..] ==> c in s;
        StripTagsNoTag(s[1..]);
        var rest := StripTags(s[1..]);
        assert r == [s[0]] + rest;
        if s[0] == '<' {
          assert '>' !in s[1..] by {
            forall k | 0 <= k < |s[1..]| ensures s[1..][k] != '>' {
              assert forall c :: c in s[1..][..k] ==> c in s;
            }
          }
          StripTagsSubseq(s[1..]);
          SubseqMembers(rest, s[1..]);
        }
        forall i, j | 0 <= i < j < |r| && r[i] == '<' ensures r[j] != '>' {
          if i > 0 {
            assert r[i] == rest[i - 1] && r[j] == rest[j - 1];
          } else {
            assert r[j] == rest[j - 1] && rest[j - 1] in rest;
          }
        }
      }
    }
  }

  /** Deleting characters cannot create a tag. */
  lemma {:induction false} NoTagSubseq(a: string, b: string)
    requires IsSubseq(a, b) && NoTag(b)
    ensures NoTag(a)
    decreases |b|
  {
    if a != [] {
      assert NoTag(b[1..]) by {
        forall i, j | 0 <= i < j < |b[1..]| && b[1..][i] == '<' ensures b[1..][j] != '>' {
          assert b[i + 1] == '<';
        }
      }
      if a[0] == b[0] && IsSubseq(a[1..], b[1..]) {
        NoTagSubseq(a[1..], b[1..]);
        SubseqMembers(a[1..], b[1..]);
        forall i, j | 0 <= i < j < |a| && a[i] == '<' ensures a[j] != '>' {
          if i > 0 {
            assert a[i] == a[1..][i - 1] && a[j] == a[1..][j - 1];
          } else {
            assert a[j] == a[1..][j - 1] && a[1..][j - 1] in a[1..];
            var m :| 0 <= m < |b[1..]| && b[1..][m] == a[j];
            assert b[m + 1] == a[j];
          }
        }
      } else {
        NoTagSubseq(a, b[1..]);
      }
    }
  }

  // ---------------------------------------------------------------------
  // Non-ASCII characters
  // ---------------------------------------------------------------------

  predicate IsAscii(c: char)
  {
    c as int < 0x80
  }

  /** `re.sub(r"[^\x00-\x7F]", "", s)`: the ASCII characters of `s`, in
      order. */
  function DropNonAscii(s: string): (r: string)
    ensures forall c :: c in r ==> IsAscii(c) && c in s
    ensures (forall c :: c in s ==> IsAscii(c)) ==> r == s
    ensures |s| == 1 ==> r == if IsAscii(s[0]) then s else []
  {
    if s == [] then []
    else
      var rest := DropNonAscii(s[1..]);
      assert forall c :: c in s[1..] ==> c in s;
      if IsAscii(s[0]) then
        assert [s[0]] + s[1..] == s;
        [s[0]] + rest
      else rest
  }

  /** The filter works character by character: it distributes over
      concatenation. */
  lemma {:induction false} DropNonAsciiAppend(a: string, b: string)
    ensures DropNonAscii(a + b) == DropNonAscii(a) + DropNonAscii(b)
  {
    if a != [] {
      assert (a + b)[1..] == a[1..] + b;
      DropNonAsciiAppend(a[1..], b);
    } else {
      assert a + b == b;
    }
  }

  lemma {:induction false} DropNonAsciiSubseq(s: string)
    ensures IsSubseq(DropNonAscii(s), s)
  {
    if s != [] {
      DropNonAsciiSubseq(s[1..]);
    }
  }

  // ---------------------------------------------------------------------
  // The cleaning chain and the record text
  // ---------------------------------------------------------------------

  /** The three substitutions applied to `name`, `description` and `body`. */
  function Clean(s: string): string
  {
    DropNonAscii(StripTags(ReplaceNewlines(s)))
  }

  /** A cleaned field holds no newline and only ASCII, is the
      newline-replaced text with characters deleted, and holds no tag. */
  lemma CleanSpec(s: string)
    ensures '\n' !in Clean(s)
    ensures forall c :: c in Clean(s) ==> IsAscii(c)
    ensures IsSubseq(Clean(s), ReplaceNewlines(s))
    ensures NoTag(Clean(s))
  {
    var n := ReplaceNewlines(s);
    var t := StripTags(n);
    ReplaceNewlinesSpec(s);
    StripTagsSubseq(n);
    DropNonAsciiSubseq(t);
    SubseqTrans(Clean(s), t, n);
    SubseqMembers(Clean(s), n);
    StripTagsNoTag(n);
    NoTagSubseq(Clean(s), t);
  }

  /** Cleaning plain single-line ASCII text without tags changes nothing. */
  lemma CleanPlain(s: string)
    requires '\n' !in s && '<' !in s && forall c :: c in s ==> IsAscii(c)
    ensures Clean(s) == s
  {
    ReplaceNewlinesSpec(s);
    assert ReplaceNewlines(s) == s;
    StripTagsNoOpen(s);
  }

  /** `rating`: present only for a rating above 1.0. */
  function RatingLine(item: Item): (line: string)
  {
    if item.rating.value > 1.0 then "Rating: " + item.rating.text else ""
  }

  /** `website`: present only when the record has an official website. */
  function WebsiteLine(item: Item): (line: string)
  {
    match item.officialWebsite
    case Some(w) => "Website: " + w
    case None => ""
  }

  /** `address`, from the raw address fields. */
  function AddressLine(item: Item): (line: string)
  {
    "Address: " + item.address.block + " " + item.address.streetName + ", Singapore " + item.address.postalCode
  }

  /** The text `format_api_response` returns. */
  function Format(item: Item): (text: string)
  {
    Join([Clean(item.name), Clean(item.description), Clean(item.body),
          WebsiteLine(item), AddressLine(item), RatingLine(item)], "\n")
  }

  /** The optional lines are empty exactly when their field is absent. */
  lemma OptionalLines(item: Item)
    ensures RatingLine(item) != [] <==> item.rating.value > 1.0
    ensures item.rating.value > 1.0 ==> RatingLine(item)[..8] == "Rating: "
    ensures WebsiteLine(item) != [] <==> item.officialWebsite.Some?
    ensures item.officialWebsite.Some? ==> WebsiteLine(item)[..9] == "Website: "
  {
  }

  /** Splitting the text on newlines gives the three cleaned fields first,
      and exactly the six lines when the raw fields of the last three hold
      no newline. */
  lemma FormatLines(item: Item)
    ensures |Split(Format(item), '\n')| >= 4
    ensures Split(Format(item), '\n')[..3] == [Clean(item.name), Clean(item.description), Clean(item.body)]
    ensures '\n' !in WebsiteLine(item) + AddressLine(item) + RatingLine(item) ==>
      Split(Format(item), '\n')
      == [Clean(item.name), Clean(item.description), Clean(item.body),
          WebsiteLine(item), AddressLine(item), RatingLine(item)]
  {
    CleanSpec(item.name);
    CleanSpec(item.description);
    CleanSpec(item.body);
    SixLines(Clean(item.name), Clean(item.description), Clean(item.body),
             WebsiteLine(item), AddressLine(item), RatingLine(item));
  }

  lemma SixLines(a: string, b: string, c: string, d: string, e: string, f: string)
    requires '\n' !in a && '\n' !in b && '\n' !in c
    ensures |Split(Join([a, b, c, d, e, f], "\n"), '\n')| >= 4
    ensures Split(Join([a, b, c, d, e, f], "\n"), '\n')[..3] == [a, b, c]
    ensures '\n' !in d + e + f ==> Split(Join([a, b, c, d, e, f], "\n"), '\n') == [a, b, c, d, e, f]
  {
    var fields, rest := [a, b, c], [d, e, f];
    assert fields + rest == [a, b, c, d, e, f];
    SplitJoinFront(fields, rest);
    if '\n' !in d + e + f {
      FreeLines(d, e, f);
    }
  }

  /** Newline-free lines in front of the lines `rest` split off as they
      are. */
  lemma {:induction false} SplitJoinFront(ws: seq<string>, rest: seq<string>)
    requires forall k :: 0 <= k < |ws| ==> '\n' !in ws[k]
    requires |rest| >= 1
    ensures Split(Join(ws + rest, "\n"), '\n') == ws + Split(Join(rest, "\n"), '\n')
  {
    if ws != [] {
      var w, ws' := ws[0], ws[1..];
      SplitJoinFront(ws', rest);
      assert [w] + ws' == ws;
      AppendAssoc([w], ws', rest);
      AppendAssoc([w], ws', Split(Join(rest, "\n"), '\n'));
      JoinCons(w, ws' + rest, "\n");
      SplitPrefix(w, Join(ws' + rest, "\n"), '\n');
    } else {
      assert ws + rest == rest;
    }
  }

  lemma FreeLines(d: string, e: string, f: string)
    requires '\n' !in d + e + f
    ensures Split(Join([d, e, f], "\n"), '\n') == [d, e, f]
  {
    assert forall x :: x in d ==> x in d + e + f;
    assert forall x :: x in e ==> x in d + e + f;
    assert forall x :: x in f ==> x in d + e + f;
    SplitJoin([d, e, f], '\n');
  }
}
