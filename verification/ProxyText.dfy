/** The text of a proxied request body that is handed to input detection. */
module ProxyText {
  import opened Common
  import opened Text

  /** A content block: a text block with its text (missing text is empty), or anything else. */
  datatype Block = TextBlock(text: string) | OtherBlock

  /** A content or system value: a string, a list of blocks, or anything else. */
  datatype Content = Plain(text: string) | Blocks(blocks: seq<Block>) | Other

  /** A missing system prompt is the empty string. */
  const NO_SYSTEM := Plain("")

  function BlockText(b: Block): string {
    match b
    case TextBlock(t) => t + "\n"
    case OtherBlock => ""
  }

  function BlocksText(bs: seq<Block>): string {
    FlatMap(BlockText, bs)
  }

  function ContentText(c: Content): string {
    match c
    case Plain(t) => t + "\n"
    case Blocks(bs) => BlocksText(bs)
    case Other => ""
  }

  /** All message texts in order. */
  function MessagesText(messages: seq<Content>): string {
    FlatMap(ContentText, messages)
  }

  function Reverse<T>(xs: seq<T>): seq<T> {
    if xs == [] then [] else Reverse(xs[1..]) + [xs[0]]
  }

  /** The system text; the blocks of a list come out in reverse order. */
  function SystemText(system: Content): string {
    match system
    case Plain(t) => t + "\n"
    case Blocks(bs) => BlocksText(Reverse(bs))
    case Other => ""
  }

  lemma {:induction false} ReverseSnoc<T>(xs: seq<T>, x: T)
    ensures Reverse(xs + [x]) == [x] + Reverse(xs)
  {
    if xs == [] {
      assert Reverse([x]) == Reverse([x][1..]) + [x];
    } else {
      ReverseSnoc(xs[1..], x);
      assert (xs + [x])[0] == xs[0] && (xs + [x])[1..] == xs[1..] + [x];
    }
  }

  method MessageContent(messages: seq<Content>) returns (content: string)
    ensures content == MessagesText(messages)
  {
    content := "";
    for i := 0 to |messages|
      invariant content == MessagesText(messages[..i])
    {
      ghost var before := content;
      assert messages[..i + 1] == messages[..i] + [messages[i]];
      FlatMapSnoc(ContentText, messages[..i], messages[i]);
      match messages[i] {
        case Plain(t) => content := content + t + "\n";
        case Blocks(bs) =>
          for k := 0 to |bs|
            invariant content == before + BlocksText(bs[..k])
          {
            assert bs[..k + 1] == bs[..k] + [bs[k]];
            FlatMapSnoc(BlockText, bs[..k], bs[k]);
            if bs[k].TextBlock? {
              content := content + bs[k].text + "\n";
            }
          }
          assert bs[..|bs|] == bs;
        case Other =>
      }
      assert content == before + ContentText(messages[i]);
    }
    assert messages[..|messages|] == messages;
  }

  method PrependSystem(system: Content, messageText: string) returns (content: string)
    ensures content == SystemText(system) + messageText
  {
    content := messageText;
    match system
    case Plain(t) => content := t + "\n" + content;
    case Blocks(bs) =>
      for k := 0 to |bs|
        invariant content == BlocksText(Reverse(bs[..k])) + messageText
      {
        assert bs[..k + 1] == bs[..k] + [bs[k]];
        ReverseSnoc(bs[..k], bs[k]);
        assert ([bs[k]] + Reverse(bs[..k]))[1..] == Reverse(bs[..k]);
        if bs[k].TextBlock? {
          content := bs[k].text + "\n" + content;
        }
      }
      assert bs[..|bs|] == bs;
    case Other =>
  }

  /** The text of the messages that are strings. */
  function StringsText(messages: seq<Content>): string {
    FlatMap((c: Content) => if c.Plain? then c.text + "\n" else "", messages)
  }

  /** An empty message text means that no message is a string. */
  lemma {:induction false} EmptyMeansNoStrings(messages: seq<Content>)
    requires MessagesText(messages) == ""
    ensures StringsText(messages) == ""
  {
    if messages != [] {
      assert ContentText(messages[0]) == "" && MessagesText(messages[1..]) == "";
      EmptyMeansNoStrings(messages[1..]);
    }
  }

  method AppendStrings(messages: seq<Content>, before: string) returns (content: string)
    ensures content == before + StringsText(messages)
  {
    content := before;
    for i := 0 to |messages|
      invariant content == before + StringsText(messages[..i])
    {
      assert messages[..i + 1] == messages[..i] + [messages[i]];
      FlatMapSnoc((c: Content) => if c.Plain? then c.text + "\n" else "", messages[..i], messages[i]);
      if messages[i].Plain? {
        content := content + messages[i].text + "\n";
      }
    }
    assert messages[..|messages|] == messages;
  }

  /** The text extracted from a well-shaped body: the system text, then the message
      texts. The last loop, over string messages, never adds anything. */
  method ExtractContent(messages: seq<Content>, system: Content) returns (content: string)
    ensures content == SystemText(system) + MessagesText(messages)
  {
    content := MessageContent(messages);
    content := PrependSystem(system, content);
    if content == "" {
      EmptyMeansNoStrings(messages);
      content := AppendStrings(messages, content);
    }
  }

  /** What is scanned in the end: the extracted text or, if it is blank, the start
      of the decoded body. */
  method ScannedText(messages: seq<Content>, system: Content, decodedBody: string) returns (content: string)
    ensures var text := SystemText(system) + MessagesText(messages);
            content == if Strip(text) != "" then text
                       else decodedBody[..if |decodedBody| < 10000 then |decodedBody| else 10000]
  {
    content := ExtractContent(messages, system);
    if Strip(content) == "" {
      content := decodedBody[..if |decodedBody| < 10000 then |decodedBody| else 10000];
    }
  }

  // ---- Nothing is cut up ----

  ghost predicate Occurs(part: string, whole: string) {
    exists a, b :: whole == a + part + b
  }

  lemma OccursInside(part: string, middle: string, a: string, b: string)
    requires Occurs(part, middle)
    ensures Occurs(part, a + middle + b)
  {
    var x, y :| middle == x + part + y;
    assert a + middle + b == (a + x) + part + (y + b);
  }

  lemma BlockOccurs(bs: seq<Block>, k: nat)
    requires k < |bs|
    ensures Occurs(BlockText(bs[k]), BlocksText(bs))
  {
    assert bs == bs[..k] + [bs[k]] + bs[k + 1..];
    FlatMapAppend(BlockText, bs[..k] + [bs[k]], bs[k + 1..]);
    FlatMapSnoc(BlockText, bs[..k], bs[k]);
  }

  lemma MessageOccurs(messages: seq<Content>, i: nat, part: string)
    requires i < |messages| && Occurs(part, ContentText(messages[i]))
    ensures Occurs(part, MessagesText(messages))
  {
    assert messages == messages[..i] + [messages[i]] + messages[i + 1..];
    FlatMapAppend(ContentText, messages[..i] + [messages[i]], messages[i + 1..]);
    FlatMapSnoc(ContentText, messages[..i], messages[i]);
    OccursInside(part, ContentText(messages[i]), MessagesText(messages[..i]), MessagesText(messages[i + 1..]));
  }

  /** Every string message and every text block of a message stands in the
      extracted text in one piece. */
  lemma MessagePartsAreContiguous(messages: seq<Content>, system: Content, i: nat)
    requires i < |messages|
    ensures var text := SystemText(system) + MessagesText(messages);
            && (messages[i].Plain? ==> Occurs(messages[i].text + "\n", text))
            && (messages[i].Blocks? ==>
                  forall k :: 0 <= k < |messages[i].blocks| && messages[i].blocks[k].TextBlock? ==>
                    Occurs(messages[i].blocks[k].text + "\n", text))
  {
    var sys, all := SystemText(system), MessagesText(messages);
    assert sys + all == sys + all + "";
    match messages[i]
    case Plain(t) =>
      assert t + "\n" == "" + (t + "\n") + "";
      MessageOccurs(messages, i, t + "\n");
      OccursInside(t + "\n", all, sys, "");
    case Blocks(bs) =>
      forall k | 0 <= k < |bs| && bs[k].TextBlock? ensures Occurs(bs[k].text + "\n", sys + all) {
        BlockOccurs(bs, k);
        MessageOccurs(messages, i, BlockText(bs[k]));
        OccursInside(BlockText(bs[k]), all, sys, "");
      }
    case Other =>
  }

  lemma {:induction false} ReverseHas<T>(xs: seq<T>, k: nat)
    requires k < |xs|
    ensures |Reverse(xs)| == |xs| && Reverse(xs)[|xs| - 1 - k] == xs[k]
  {
    if |xs| > 1 {
      ReverseHas(xs[1..], if k > 0 then k - 1 else 0);
    }
  }

  /** So does every text block of the system prompt. */
  lemma SystemBlocksAreContiguous(messages: seq<Content>, blocks: seq<Block>, k: nat)
    requires k < |blocks| && blocks[k].TextBlock?
    ensures Occurs(blocks[k].text + "\n", SystemText(Blocks(blocks)) + MessagesText(messages))
  {
    ReverseHas(blocks, k);
    BlockOccurs(Reverse(blocks), |blocks| - 1 - k);
    OccursInside(BlockText(blocks[k]), BlocksText(Reverse(blocks)), "", MessagesText(messages));
    assert "" + BlocksText(Reverse(blocks)) + MessagesText(messages)
        == BlocksText(Reverse(blocks)) + MessagesText(messages);
  }

  /** A system prompt that is a string comes first, with a line end; a missing one
      leaves just the line end; one of another kind leaves nothing. */
  lemma SystemComesFirst(messages: seq<Content>, system: Content)
    ensures system.Plain? ==>
              SystemText(system) + MessagesText(messages) == system.text + "\n" + MessagesText(messages)
    ensures system.Other? ==> SystemText(system) + MessagesText(messages) == MessagesText(messages)
    ensures SystemText(NO_SYSTEM) == "\n"
  {
    assert "" + "\n" == "\n";
  }

  /** Two system blocks come out with the later one in front. */
  lemma SystemBlocksAreReversed(a: string, b: string)
    ensures SystemText(Blocks([TextBlock(a), OtherBlock, TextBlock(b)])) == b + "\n" + a + "\n"
  {
    var x, y := TextBlock(a), TextBlock(b);
    ReverseSnoc([x, OtherBlock], y);
    ReverseSnoc([x], OtherBlock);
    ReverseSnoc([], x);
    assert [x, OtherBlock, y] == [x, OtherBlock] + [y] && [x, OtherBlock] == [x] + [OtherBlock] && [x] == [] + [x];
    assert Reverse([x, OtherBlock, y]) == [y, OtherBlock, x];
    FlatMapSingle(BlockText, y);
    FlatMapSnoc(BlockText, [y], OtherBlock);
    FlatMapSnoc(BlockText, [y, OtherBlock], x);
    assert [y, OtherBlock] == [y] + [OtherBlock] && [y, OtherBlock, x] == [y, OtherBlock] + [x];
  }

  /** The texts of messages, in order: those of the first, then those of the rest. */
  lemma MessagesInOrder(first: seq<Content>, rest: seq<Content>)
    ensures MessagesText(first + rest) == MessagesText(first) + MessagesText(rest)
  {
    FlatMapAppend(ContentText, first, rest);
  }

  /** The parts of one message: a string with its line end, its text blocks in order
      with theirs, nothing of anything else. */
  lemma MessageIs(t: string, bs: seq<Block>, b: Block)
    ensures MessagesText([Plain(t)]) == t + "\n" && MessagesText([Other]) == "" && MessagesText([Blocks([])]) == ""
    ensures MessagesText([Blocks(bs + [b])]) ==
              MessagesText([Blocks(bs)]) + if b.TextBlock? then b.text + "\n" else ""
  {
    FlatMapSingle(ContentText, Plain(t));
    FlatMapSingle(ContentText, Other);
    FlatMapSingle(ContentText, Blocks([]));
    FlatMapSingle(ContentText, Blocks(bs));
    FlatMapSingle(ContentText, Blocks(bs + [b]));
    FlatMapSnoc(BlockText, bs, b);
  }
}
