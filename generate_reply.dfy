/** `_format_api_response` of the reply generator: the three free-text
    fields of a record, cleaned by the same chain as the record formatter,
    one per line. */
module GenerateReply {

  import opened Model
  import opened PyStr
  import opened FormatApiResponse

  /** The text `_format_api_response` returns. */
  function FormatReply(item: Item): (text: string)
  {
    Join([Clean(item.name), Clean(item.description), Clean(item.body)], "\n")
  }

  /** The text splits on newlines into exactly the three cleaned fields. */
  lemma ReplyLines(item: Item)
    ensures Split(FormatReply(item), '\n') == [Clean(item.name), Clean(item.description), Clean(item.body)]
  {
    CleanSpec(item.name);
    CleanSpec(item.description);
    CleanSpec(item.body);
    ThreeLines(Clean(item.name), Clean(item.description), Clean(item.body));
  }

  lemma ThreeLines(a: string, b: string, c: string)
    requires '\n' !in a && '\n' !in b && '\n' !in c
    ensures Split(Join([a, b, c], "\n"), '\n') == [a, b, c]
  {
    var ws := [a, b, c];
    assert forall k :: 0 <= k < 3 ==> '\n' !in ws[k];
    SplitJoin(ws, '\n');
  }

  /** Each line of the text is its field with newlines turned into spaces
      and then characters deleted, and holds only ASCII and no tag. */
  lemma ReplyLinesClean(item: Item)
    ensures var lines := Split(FormatReply(item), '\n');
      && |lines| == 3
      && IsSubseq(lines[0], ReplaceNewlines(item.name))
      && IsSubseq(lines[1], ReplaceNewlines(item.description))
      && IsSubseq(lines[2], ReplaceNewlines(item.body))
      && forall k :: 0 <= k < 3 ==> NoTag(lines[k]) && forall c :: c in lines[k] ==> IsAscii(c)
  {
    ReplyLines(item);
    CleanSpec(item.name);
    CleanSpec(item.description);
    CleanSpec(item.body);
  }

  /** The record formatter's text starts with this text: the two helpers
      agree on the three cleaned fields. */
  lemma ReplyPrefixOfFormat(item: Item)
    ensures Format(item) == FormatReply(item) + "\n" + Join([WebsiteLine(item), AddressLine(item), RatingLine(item)], "\n")
  {
    SixJoin(Clean(item.name), Clean(item.description), Clean(item.body),
            WebsiteLine(item), AddressLine(item), RatingLine(item));
  }

  lemma SixJoin(a: string, b: string, c: string, d: string, e: string, f: string)
    ensures Join([a, b, c, d, e, f], "\n") == Join([a, b, c], "\n") + "\n" + Join([d, e, f], "\n")
  {
    assert [a, b, c] + [d, e, f] == [a, b, c, d, e, f];
    JoinAppend([a, b, c], [d, e, f], "\n");
  }
}
