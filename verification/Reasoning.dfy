/**
 Removal of the reasoning blocks that open a model's reply. The scanner counts
 nesting depth; it is shown to accept exactly the well-nested blocks of a
 grammar that does not mention depth.
 */
module Reasoning {
  import opened Common

  const OPEN := "<think>"
  const CLOSE := "</think>"

  // Tags in a text

  predicate TagAt(text: string, i: nat, tag: string) {
    i + |tag| <= |text| && text[i..i + |tag|] == tag
  }

  /** What starts at one position of a text. */
  datatype Mark = Opening | Closing | Other

  /** What starts at every position, and the lengths of the two tags. */
  datatype Marks = Marks(at: seq<Mark>, open: nat, close: nat) {

    /** Tags are not empty and lie inside the text. */
    predicate Valid() {
      && open > 0 && close > 0
      && (forall i :: 0 <= i < |at| && at[i] == Opening ==> i + open <= |at|)
      && (forall i :: 0 <= i < |at| && at[i] == Closing ==> i + close <= |at|)
    }

    predicate Is(i: nat, mark: Mark) {
      i < |at| && at[i] == mark
    }
  }

  function MarkAt(text: string, i: nat): Mark {
    if TagAt(text, i, OPEN) then Opening
    else if TagAt(text, i, CLOSE) then Closing
    else Other
  }

  function MarksOf(text: string): (m: Marks)
    ensures m.Valid() && |m.at| == |text|
    ensures forall i :: 0 <= i < |text| ==> m.at[i] == MarkAt(text, i)
  {
    Marks(seq(|text|, i requires 0 <= i < |text| => MarkAt(text, i)), |OPEN|, |CLOSE|)
  }

  // The grammar

  /**
   The shape of what stands between an opening tag and its closing tag: some
   characters of text, then possibly a block and more of the same.
   */
  datatype Body = Plain(len: nat) | Nested(len: nat, inner: Body, rest: Body)

  function Width(m: Marks, b: Body): nat {
    match b
    case Plain(len) => len
    case Nested(len, inner, rest) => len + m.open + Width(m, inner) + m.close + Width(m, rest)
  }

  /** No tag starts in the len characters at i. */
  predicate TagFree(m: Marks, i: nat, len: nat) {
    forall k: nat :: i <= k < i + len ==> m.Is(k, Other)
  }

  /** The text at position i has the shape b, and its tags match. */
  predicate WellNested(m: Marks, i: nat, b: Body)
    decreases b
  {
    && TagFree(m, i, b.len)
    && (b.Nested? ==>
          var inner := i + b.len + m.open;
          var close := inner + Width(m, b.inner);
          && m.Is(i + b.len, Opening)
          && WellNested(m, inner, b.inner)
          && m.Is(close, Closing)
          && WellNested(m, close + m.close, b.rest))
  }

  function BlockWidth(m: Marks, b: Body): nat {
    m.open + Width(m, b) + m.close
  }

  /** The text starts with a well-nested block of shape b. */
  predicate StartsBlock(m: Marks, b: Body) {
    m.Is(0, Opening) && WellNested(m, m.open, b) && m.Is(m.open + Width(m, b), Closing)
  }

  // The scanner

  /** Index just past the tag that closes the last of depth open blocks, scanning from i; None when it is never closed. */
  function Scan(m: Marks, i: nat, depth: int): Option<nat>
    requires m.Valid()
    decreases |m.at| - i
  {
    if i >= |m.at| then None
    else if m.at[i] == Opening then Scan(m, i + m.open, depth + 1)
    else if m.at[i] == Closing then
      if depth == 1 then Some(i + m.close) else Scan(m, i + m.close, depth - 1)
    else Scan(m, i + 1, depth)
  }

  function BlockEnd(text: string): Option<nat> {
    Scan(MarksOf(text), 0, 0)
  }

  /** Index just past the tag that closes the block opening at 0; -1 when it is never closed. */
  method FindBlockEnd(text: string) returns (end: int)
    ensures end == match BlockEnd(text) case None => -1 case Some(n) => n
  {
    var depth, index := 0, 0;
    ghost var m := MarksOf(text);
    while index < |text|
      invariant 0 <= index <= |text|
      invariant BlockEnd(text) == Scan(m, index, depth)
    {
      assert m.at[index] == MarkAt(text, index);
      if TagAt(text, index, OPEN) {
        depth := depth + 1;
        index := index + |OPEN|;
      } else if TagAt(text, index, CLOSE) {
        depth := depth - 1;
        index := index + |CLOSE|;
        if depth == 0 {
          return index;
        }
      } else {
        index := index + 1;
      }
    }
    return -1;
  }

  // Every well-nested block is found

  lemma {:induction false} ScanText(m: Marks, i: nat, len: nat, depth: int)
    requires m.Valid() && TagFree(m, i, len)
    ensures Scan(m, i, depth) == Scan(m, i + len, depth)
    decreases len
  {
    if len > 0 {
      assert m.Is(i, Other);
      ScanText(m, i + 1, len - 1, depth);
    }
  }

  lemma ScanTag(m: Marks, i: nat, depth: int)
    requires m.Valid() && i < |m.at|
    ensures m.at[i] == Opening ==> Scan(m, i, depth) == Scan(m, i + m.open, depth + 1)
    ensures m.at[i] == Closing && depth != 1 ==> Scan(m, i, depth) == Scan(m, i + m.close, depth - 1)
    ensures m.at[i] == Closing && depth == 1 ==> Scan(m, i, depth) == Some(i + m.close)
  {
  }

  /** Scanning over a block inside a body: text, tag, inner body, tag, rest. */
  lemma ScanNested(m: Marks, i: nat, open: nat, close: nat, end: nat, depth: int)
    requires m.Valid() && depth >= 1 && i <= open && m.Is(open, Opening) && m.Is(close, Closing)
    requires Scan(m, i, depth) == Scan(m, open, depth)
    requires Scan(m, open + m.open, depth + 1) == Scan(m, close, depth + 1)
    requires Scan(m, close + m.close, depth) == Scan(m, end, depth)
    ensures Scan(m, i, depth) == Scan(m, end, depth)
  {
    ScanTag(m, open, depth);
    ScanTag(m, close, depth + 1);
  }

  lemma NestedParts(m: Marks, i: nat, len: nat, inner: Body, rest: Body) returns (open: nat, close: nat, end: nat)
    requires WellNested(m, i, Nested(len, inner, rest))
    ensures open == i + len && close == open + m.open + Width(m, inner)
    ensures end == close + m.close + Width(m, rest) == i + Width(m, Nested(len, inner, rest))
    ensures TagFree(m, i, len) && m.Is(open, Opening) && m.Is(close, Closing)
    ensures WellNested(m, open + m.open, inner) && WellNested(m, close + m.close, rest)
  {
    hide TagFree;
    open := i + len;
    close := open + m.open + Width(m, inner);
    end := close + m.close + Width(m, rest);
  }

  lemma NestedFromParts(m: Marks, i: nat, len: nat, inner: Body, rest: Body, close: nat)
    requires TagFree(m, i, len) && m.Is(i + len, Opening) && WellNested(m, i + len + m.open, inner)
    requires close == i + len + m.open + Width(m, inner) && m.Is(close, Closing)
    requires WellNested(m, close + m.close, rest)
    ensures WellNested(m, i, Nested(len, inner, rest))
    ensures i + Width(m, Nested(len, inner, rest)) == close + m.close + Width(m, rest)
  {
  }

  lemma ScanPlain(m: Marks, i: nat, len: nat, depth: int)
    requires m.Valid() && WellNested(m, i, Plain(len))
    ensures Scan(m, i, depth) == Scan(m, i + Width(m, Plain(len)), depth)
  {
    ScanText(m, i, len, depth);
  }

  /** Scanning over a well-nested body comes back to the same depth. */
  lemma {:induction false} ScanBody(m: Marks, i: nat, b: Body, depth: int)
    requires m.Valid() && WellNested(m, i, b) && depth >= 1
    ensures Scan(m, i, depth) == Scan(m, i + Width(m, b), depth)
    decreases b
  {
    hide *;
    match b
    case Plain(len) => ScanPlain(m, i, len, depth);
    case Nested(len, inner, rest) =>
      var open, close, end := NestedParts(m, i, len, inner, rest);
      ScanText(m, i, len, depth);
      ScanBody(m, open + m.open, inner, depth + 1);
      ScanBody(m, close + m.close, rest, depth);
      ScanNested(m, i, open, close, end, depth);
  }

  lemma BlockEndFound(m: Marks, b: Body)
    requires m.Valid() && StartsBlock(m, b)
    ensures Scan(m, 0, 0) == Some(BlockWidth(m, b))
  {
    ScanBody(m, m.open, b, 1);
  }

  // Everything found is a well-nested block

  /** Open blocks, the innermost first: what is still to be read of each. */
  datatype Pile = Bottom | Over(body: Body, below: Pile)

  function Depth(p: Pile): nat {
    match p case Bottom => 0 case Over(_, below) => 1 + Depth(below)
  }

  /** From i to end, the text is the bodies, each well nested and followed by a closing tag. */
  predicate Closes(m: Marks, i: nat, p: Pile, end: nat)
    decreases p
  {
    match p
    case Bottom => i == end
    case Over(body, below) =>
      var close := i + Width(m, body);
      WellNested(m, i, body) && m.Is(close, Closing) && Closes(m, close + m.close, below, end)
  }

  /** The body with one more character in front of its text. */
  function Prepend(b: Body): Body {
    match b
    case Plain(len) => Plain(len + 1)
    case Nested(len, inner, rest) => Nested(len + 1, inner, rest)
  }

  lemma PrependIsWellNested(m: Marks, i: nat, b: Body)
    requires WellNested(m, i + 1, b) && m.Is(i, Other)
    ensures WellNested(m, i, Prepend(b)) && Width(m, Prepend(b)) == Width(m, b) + 1
  {
  }

  lemma ClosesMore(m: Marks, i: nat, body: Body, below: Pile, close: nat, end: nat)
    requires WellNested(m, i, body) && close == i + Width(m, body) && m.Is(close, Closing)
    requires Closes(m, close + m.close, below, end)
    ensures Closes(m, i, Over(body, below), end)
  {
    hide WellNested, Width;
  }

  lemma ClosesLess(m: Marks, i: nat, body: Body, below: Pile, end: nat) returns (close: nat)
    requires Closes(m, i, Over(body, below), end)
    ensures WellNested(m, i, body) && close == i + Width(m, body) && m.Is(close, Closing)
    ensures Closes(m, close + m.close, below, end)
  {
    hide WellNested, Width;
    close := i + Width(m, body);
  }

  lemma ClosesTwoLess(m: Marks, i: nat, inner: Body, rest: Body, below: Pile, end: nat) returns (close: nat, last: nat)
    requires Closes(m, i, Over(inner, Over(rest, below)), end)
    ensures WellNested(m, i, inner) && close == i + Width(m, inner) && m.Is(close, Closing)
    ensures WellNested(m, close + m.close, rest) && last == close + m.close + Width(m, rest) && m.Is(last, Closing)
    ensures Closes(m, last + m.close, below, end)
  {
    hide *;
    close := ClosesLess(m, i, inner, Over(rest, below), end);
    last := ClosesLess(m, close + m.close, rest, below, end);
  }

  /** The two innermost bodies with an opening tag in front make one body of the block around them. */
  lemma OpeningJoins(m: Marks, i: nat, inner: Body, rest: Body, below: Pile, end: nat)
    requires m.Is(i, Opening) && Closes(m, i + m.open, Over(inner, Over(rest, below)), end)
    ensures Closes(m, i, Over(Nested(0, inner, rest), below), end)
  {
    assert TagFree(m, i, 0);
    hide *;
    var close, last := ClosesTwoLess(m, i + m.open, inner, rest, below, end);
    NestedFromParts(m, i, 0, inner, rest, close);
    ClosesMore(m, i, Nested(0, inner, rest), below, last, end);
  }

  lemma BottomCloses(m: Marks, end: nat)
    ensures Closes(m, end, Bottom, end)
  {
  }

  lemma ClosingJoins(m: Marks, i: nat, below: Pile, end: nat)
    requires m.Is(i, Closing) && Closes(m, i + m.close, below, end)
    ensures Closes(m, i, Over(Plain(0), below), end)
  {
    assert WellNested(m, i, Plain(0)) && Width(m, Plain(0)) == 0;
    hide *;
    ClosesMore(m, i, Plain(0), below, i, end);
  }

  lemma OtherJoins(m: Marks, i: nat, body: Body, below: Pile, end: nat)
    requires m.Is(i, Other) && Closes(m, i + 1, Over(body, below), end)
    ensures Closes(m, i, Over(Prepend(body), below), end)
  {
    hide *;
    var close := ClosesLess(m, i + 1, body, below, end);
    PrependIsWellNested(m, i, body);
    ClosesMore(m, i, Prepend(body), below, close, end);
  }

  /** What is read while depth blocks are open is depth well-nested bodies, each closed. */
  lemma {:induction false} ScanIsNested(m: Marks, i: nat, depth: nat) returns (p: Pile)
    requires m.Valid() && depth >= 1 && Scan(m, i, depth).Some?
    ensures Depth(p) == depth && Closes(m, i, p, Scan(m, i, depth).value)
    decreases |m.at| - i
  {
    hide WellNested, Width, Closes;
    var end := Scan(m, i, depth).value;
    if m.at[i] == Opening {
      var q := ScanIsNested(m, i + m.open, depth + 1);
      OpeningJoins(m, i, q.body, q.below.body, q.below.below, end);
      p := Over(Nested(0, q.body, q.below.body), q.below.below);
    } else if m.at[i] == Closing {
      var q := Bottom;
      BottomCloses(m, end);
      if depth > 1 {
        q := ScanIsNested(m, i + m.close, depth - 1);
      }
      ClosingJoins(m, i, q, end);
      p := Over(Plain(0), q);
    } else {
      var q := ScanIsNested(m, i + 1, depth);
      OtherJoins(m, i, q.body, q.below, end);
      p := Over(Prepend(q.body), q.below);
    }
  }

  /** What was found is a block of the grammar. */
  lemma FoundIsBlock(m: Marks) returns (b: Body)
    requires m.Valid() && m.Is(0, Opening) && Scan(m, 0, 0).Some?
    ensures StartsBlock(m, b) && Scan(m, 0, 0).value == BlockWidth(m, b)
  {
    var p := ScanIsNested(m, m.open, 1);
    b := p.body;
  }

  /** Text that starts with the opening tag has a block end at n exactly when it starts with a well-nested block of n characters. */
  lemma BlockEndExact(text: string, n: nat)
    requires TagAt(text, 0, OPEN)
    ensures BlockEnd(text) == Some(n) <==> exists b :: StartsBlock(MarksOf(text), b) && BlockWidth(MarksOf(text), b) == n
    ensures BlockEnd(text) == Some(n) ==> |OPEN| + |CLOSE| <= n <= |text|
  {
    var m := MarksOf(text);
    if BlockEnd(text) == Some(n) {
      var b := FoundIsBlock(m);
    }
    if b :| StartsBlock(m, b) && BlockWidth(m, b) == n {
      BlockEndFound(m, b);
    }
  }

  // A block does not depend on what follows it

  /** Both tags start with '<' and have no other. */
  lemma OnlyFirstIsBracket()
    ensures OPEN[0] == '<' && forall k :: 0 < k < |OPEN| ==> OPEN[k] != '<'
    ensures CLOSE[0] == '<' && forall k :: 0 < k < |CLOSE| ==> CLOSE[k] != '<'
  {
  }

  lemma MarkShowsBracket(text: string, i: nat)
    requires i < |text| && MarkAt(text, i) != Other
    ensures text[i] == '<'
  {
    OnlyFirstIsBracket();
    assert TagAt(text, i, OPEN) ==> text[i..i + |OPEN|][0] == text[i];
    assert TagAt(text, i, CLOSE) ==> text[i..i + |CLOSE|][0] == text[i];
  }

  /** A tag inside the common part of two texts is in both. */
  lemma TagInCommon(text: string, other: string, i: nat, tag: string, end: nat)
    requires end <= |text| && end <= |other| && text[..end] == other[..end]
    requires TagAt(text, i, tag) && i + |tag| <= end
    ensures TagAt(other, i, tag)
  {
    assert text[i..i + |tag|] == text[..end][i..i + |tag|];
    assert other[i..i + |tag|] == other[..end][i..i + |tag|];
  }

  /** No tag reaches over a later '<'. */
  lemma TagEndsAtBracket(text: string, i: nat, n: nat, tag: string)
    requires tag == OPEN || tag == CLOSE
    requires i < n < |text| && text[n] == '<' && TagAt(text, i, tag)
    ensures i + |tag| <= n
  {
    OnlyFirstIsBracket();
    assert forall k :: 0 < k < |tag| ==> text[i..i + |tag|][k] == tag[k] != '<';
  }

  /** Two texts that have a common part up to a closing tag at n have the same tags up to n. */
  lemma SameTagsInCommon(text: string, other: string, i: nat, n: nat)
    requires i <= n && MarkAt(text, n) == Closing
    requires n + |CLOSE| <= |text| && n + |CLOSE| <= |other| && text[..n + |CLOSE|] == other[..n + |CLOSE|]
    ensures MarkAt(other, i) == MarkAt(text, i)
  {
    var end := n + |CLOSE|;
    TagInCommon(text, other, n, CLOSE, end);
    if i == n {
      if TagAt(other, i, OPEN) {
        TagInCommon(other, text, i, OPEN, end);
      }
    } else {
      MarkShowsBracket(text, n);
      assert other[n] == other[..end][n] == text[..end][n] == text[n];
      SameTagInCommon(text, other, i, n, OPEN);
      SameTagInCommon(text, other, i, n, CLOSE);
    }
  }

  lemma SameTagInCommon(text: string, other: string, i: nat, n: nat, tag: string)
    requires tag == OPEN || tag == CLOSE
    requires i < n < |text| && n < |other| && text[n] == '<' == other[n] && text[..n] == other[..n]
    ensures TagAt(text, i, tag) <==> TagAt(other, i, tag)
  {
    if TagAt(text, i, tag) {
      TagEndsAtBracket(text, i, n, tag);
      TagInCommon(text, other, i, tag, n);
    }
    if TagAt(other, i, tag) {
      TagEndsAtBracket(other, i, n, tag);
      TagInCommon(other, text, i, tag, n);
    }
  }

  /** Two texts with the same marks up to n. */
  predicate Agree(m: Marks, o: Marks, n: nat) {
    && m.open == o.open && m.close == o.close && n < |m.at| && n < |o.at|
    && forall k :: 0 <= k <= n ==> m.at[k] == o.at[k]
  }

  lemma SameTagLengths(m: Marks, o: Marks, n: nat)
    requires Agree(m, o, n)
    ensures m.open == o.open && m.close == o.close
  {
  }

  lemma TagInAgreement(m: Marks, o: Marks, k: nat, mark: Mark, n: nat)
    requires Agree(m, o, n) && k <= n && m.Is(k, mark)
    ensures o.Is(k, mark)
  {
  }

  lemma TagFreeInCommon(m: Marks, o: Marks, i: nat, len: nat, n: nat)
    requires Agree(m, o, n) && TagFree(m, i, len) && i + len <= n
    ensures TagFree(o, i, len)
  {
    forall k: nat | i <= k < i + len
      ensures o.Is(k, Other)
    {
      assert m.Is(k, Other) && m.at[k] == o.at[k];
    }
  }

  lemma PlainInCommon(m: Marks, o: Marks, i: nat, len: nat, n: nat)
    requires Agree(m, o, n) && WellNested(m, i, Plain(len)) && i + Width(m, Plain(len)) <= n
    ensures WellNested(o, i, Plain(len)) && Width(o, Plain(len)) == Width(m, Plain(len))
  {
    TagFreeInCommon(m, o, i, len, n);
  }

  /** What agreeing marks say about a block whose inner body and rest are known to be in common. */
  lemma NestedInCommon(m: Marks, o: Marks, i: nat, len: nat, inner: Body, rest: Body, n: nat, open: nat, close: nat)
    requires Agree(m, o, n) && open == i + len && open <= close <= n && close == open + m.open + Width(o, inner)
    requires TagFree(m, i, len) && m.Is(open, Opening) && m.Is(close, Closing)
    requires WellNested(o, open + m.open, inner) && WellNested(o, close + m.close, rest)
    ensures WellNested(o, i, Nested(len, inner, rest))
    ensures i + Width(o, Nested(len, inner, rest)) == close + m.close + Width(o, rest)
  {
    hide *;
    SameTagLengths(m, o, n);
    TagFreeInCommon(m, o, i, len, n);
    TagInAgreement(m, o, open, Opening, n);
    TagInAgreement(m, o, close, Closing, n);
    NestedFromParts(o, i, len, inner, rest, close);
  }

  /** A body and the marks it lies on determine whether it is well nested. */
  lemma {:induction false} BodyInCommon(m: Marks, o: Marks, i: nat, b: Body, n: nat)
    requires Agree(m, o, n) && WellNested(m, i, b) && i + Width(m, b) <= n
    ensures WellNested(o, i, b) && Width(o, b) == Width(m, b)
    decreases b
  {
    hide *;
    match b
    case Plain(len) => PlainInCommon(m, o, i, len, n);
    case Nested(len, inner, rest) =>
      var open, close, end := NestedParts(m, i, len, inner, rest);
      BodyInCommon(m, o, open + m.open, inner, n);
      BodyInCommon(m, o, close + m.close, rest, n);
      NestedInCommon(m, o, i, len, inner, rest, n, open, close);
  }

  lemma SameMarksInCommon(text: string, other: string, n: nat)
    requires MarkAt(text, n) == Closing
    requires n + |CLOSE| <= |text| && n + |CLOSE| <= |other| && text[..n + |CLOSE|] == other[..n + |CLOSE|]
    ensures forall k :: 0 <= k <= n ==> MarksOf(text).at[k] == MarksOf(other).at[k]
  {
    forall k | 0 <= k <= n ensures MarksOf(text).at[k] == MarksOf(other).at[k] {
      SameTagsInCommon(text, other, k, n);
    }
  }

  lemma BlockInCommon(m: Marks, o: Marks, b: Body)
    requires StartsBlock(m, b) && Agree(m, o, m.open + Width(m, b))
    ensures StartsBlock(o, b) && Width(o, b) == Width(m, b)
  {
    hide WellNested, Width;
    TagInAgreement(m, o, 0, Opening, m.open + Width(m, b));
    TagInAgreement(m, o, m.open + Width(m, b), Closing, m.open + Width(m, b));
    BodyInCommon(m, o, m.open, b, m.open + Width(m, b));
  }

  lemma BlockInPrefix(block: string, text: string, b: Body)
    requires StartsBlock(MarksOf(block), b) && |block| == BlockWidth(MarksOf(block), b)
    requires |block| <= |text| && text[..|block|] == block
    ensures StartsBlock(MarksOf(text), b) && BlockWidth(MarksOf(text), b) == |block|
  {
    hide WellNested, Width, TagAt, MarkAt;
    var m := MarksOf(block);
    var n := |OPEN| + Width(m, b);
    assert MarkAt(block, n) == m.at[n] == Closing;
    assert block[..|block|] == block;
    SameMarksInCommon(block, text, n);
    BlockInCommon(m, MarksOf(text), b);
  }

  /** The scanner stops exactly at the end of a well-nested block, whatever follows it. */
  lemma BlockEndWhateverFollows(block: string, b: Body, suffix: string)
    requires StartsBlock(MarksOf(block), b) && |block| == BlockWidth(MarksOf(block), b)
    ensures BlockEnd(block + suffix) == Some(|block|)
  {
    var text := block + suffix;
    assert text[..|block|] == block;
    BlockInPrefix(block, text, b);
    BlockEndFound(MarksOf(text), b);
  }

  // Stripping

  /** Characters allowed before the tag: whitespace and zero-width marks. */
  predicate Invisible(c: char) {
    c == ' ' || c == '\t' || c == '\n' || c == '\r' || c == '\U{000B}' || c == '\U{000C}'
    || c == '\U{200B}' || c == '\U{200C}' || c == '\U{200D}' || c == '\U{2060}' || c == '\U{FEFF}'
  }

  function StripLeft(s: string): (r: string)
    ensures |r| <= |s|
    ensures r != "" ==> !Invisible(r[0])
  {
    if s != "" && Invisible(s[0]) then StripLeft(s[1..]) else s
  }

  function StripRight(s: string): (r: string)
    ensures r <= s
    ensures r != "" ==> !Invisible(r[|r| - 1])
  {
    if s != "" && Invisible(s[|s| - 1]) then StripRight(s[..|s| - 1]) else s
  }

  /** Only invisible characters are dropped, and all of them at the start. */
  lemma {:induction false} StripLeftExact(s: string)
    ensures
      var n := |s| - |StripLeft(s)|;
      StripLeft(s) == s[n..] && forall i :: 0 <= i < n ==> Invisible(s[i])
  {
    if s != "" && Invisible(s[0]) {
      StripLeftExact(s[1..]);
      var n := |s[1..]| - |StripLeft(s[1..])|;
      assert s[1..][n..] == s[n + 1..];
      forall i | 0 <= i < n + 1 ensures Invisible(s[i]) {
        assert i > 0 ==> s[i] == s[1..][i - 1];
      }
    }
  }

  /** Only invisible characters are dropped from the end, and all of them. */
  lemma {:induction false} StripRightExact(s: string)
    ensures
      var n := |StripRight(s)|;
      StripRight(s) == s[..n] && forall i :: n <= i < |s| ==> Invisible(s[i])
  {
    if s != "" && Invisible(s[|s| - 1]) {
      var front := s[..|s| - 1];
      StripRightExact(front);
      forall i | |StripRight(front)| <= i < |s| ensures Invisible(s[i]) {
        assert i < |front| ==> s[i] == front[i];
      }
    }
  }

  function Strip(s: string): string {
    StripRight(StripLeft(s))
  }

  /** r is what of the text stands at i..j: from its first visible character to its last, or nothing when none is visible. */
  predicate IsTrimmed(s: string, r: string, i: nat, j: nat) {
    && i <= j <= |s| && r == s[i..j]
    && (forall k :: 0 <= k < |s| && !(i <= k < j) ==> Invisible(s[k]))
    && (i < j ==> !Invisible(s[i]) && !Invisible(s[j - 1]))
  }

  lemma StripIsTrimmed(s: string) returns (i: nat, j: nat)
    ensures IsTrimmed(s, Strip(s), i, j)
  {
    var left := StripLeft(s);
    var r := StripRight(left);
    StripLeftExact(s);
    StripRightExact(left);
    hide StripLeft, StripRight, Invisible;
    i := |s| - |left|;
    j := i + |r|;
    assert s[i..j] == left[..|r|];
    forall k | 0 <= k < |s| && !(i <= k < j)
      ensures Invisible(s[k])
    {
      assert k >= i ==> s[k] == left[k - i];
    }
  }

  /** There is one way to trim a text. */
  lemma TrimmedIsUnique(s: string, r: string, i: nat, j: nat, q: string, k: nat, l: nat)
    requires IsTrimmed(s, r, i, j) && IsTrimmed(s, q, k, l)
    ensures r == q
  {
    assert i < j && k < l ==> i <= k && k <= i && j <= l && l <= j;
  }

  /** The first visible characters of the text are the opening tag. */
  predicate Leads(text: string) {
    TagAt(StripLeft(text), 0, OPEN)
  }

  /** What is left of the text when every leading block is removed; None when a leading block is never closed. */
  function AfterBlocks(text: string): Option<string>
    decreases |text|
  {
    if !Leads(text) then Some(text)
    else
      var candidate := StripLeft(text);
      match BlockEnd(candidate)
      case None => None
      case Some(n) =>
        BlockEndExact(candidate, n);
        AfterBlocks(candidate[n..])
  }

  /** What the reply becomes: untouched when no block leads it, otherwise what follows the blocks, trimmed. */
  function Stripped(text: string): string {
    if !Leads(text) then text
    else match AfterBlocks(text) case None => "" case Some(rest) => Strip(rest)
  }

  lemma AfterOneBlock(text: string)
    requires Leads(text)
    ensures
      match BlockEnd(StripLeft(text))
      case None => AfterBlocks(text) == None
      case Some(n) => 0 < n <= |StripLeft(text)| && AfterBlocks(text) == AfterBlocks(StripLeft(text)[n..])
  {
    if BlockEnd(StripLeft(text)).Some? {
      BlockEndExact(StripLeft(text), BlockEnd(StripLeft(text)).value);
    }
  }

  /** One leading block less; None when it is never closed. */
  method StripOne(text: string) returns (next: Option<string>)
    requires Leads(text)
    ensures next.None? ==> AfterBlocks(text) == None
    ensures next.Some? ==> |next.value| < |text| && AfterBlocks(text) == AfterBlocks(next.value)
  {
    var candidate := StripLeft(text);
    var end := FindBlockEnd(candidate);
    AfterOneBlock(text);
    return if end == -1 then None else Some(candidate[end..]);
  }

  /** Text that no block leads comes back as it is. */
  method StripText(text: string) returns (r: string)
    ensures r == Stripped(text)
    ensures !Leads(text) ==> r == text
  {
    var result := text;
    var removed := false;
    while Leads(result)
      invariant AfterBlocks(text) == AfterBlocks(result)
      invariant if removed then Leads(text) else result == text
      decreases |result|
    {
      var next := StripOne(result);
      if next.None? {
        return "";
      }
      result, removed := next.value, true;
    }
    return if removed then Strip(result) else text;
  }

  // What stripping promises

  /** A run of well-nested blocks with invisible characters in front of each, and what follows. */
  ghost predicate BlocksThen(text: string, rest: string)
    decreases |text|
  {
    text == rest ||
    (exists b, n ::
       Leads(text) && StartsBlock(MarksOf(StripLeft(text)), b) && n == BlockWidth(MarksOf(StripLeft(text)), b)
       && 0 < n <= |StripLeft(text)| && BlocksThen(StripLeft(text)[n..], rest))
  }

  lemma {:induction false} RestDoesNotLead(text: string)
    ensures AfterBlocks(text).Some? ==> !Leads(AfterBlocks(text).value)
    decreases |text|
  {
    if Leads(text) {
      AfterOneBlock(text);
      if BlockEnd(StripLeft(text)).Some? {
        RestDoesNotLead(StripLeft(text)[BlockEnd(StripLeft(text)).value..]);
      }
    }
  }

  lemma {:induction false} StripLeftOfTrimmed(s: string)
    requires s == "" || !Invisible(s[0])
    ensures StripLeft(s) == s
  {
  }

  /** Trimming the end cannot make a text start with the tag. */
  lemma TrimDoesNotLead(text: string)
    requires !Leads(text)
    ensures !Leads(Strip(text))
  {
    var left := StripLeft(text);
    var r := StripRight(left);
    assert r != "" ==> r[0] == left[0];
    StripLeftOfTrimmed(r);
    assert |OPEN| <= |r| ==> left[0..|OPEN|] == r[0..|OPEN|];
  }

  /** No reply ends up with the opening tag as its first visible characters. */
  lemma StrippedNeverLeads(text: string)
    ensures !Leads(Stripped(text))
  {
    if Leads(text) {
      RestDoesNotLead(text);
      if AfterBlocks(text).Some? {
        TrimDoesNotLead(AfterBlocks(text).value);
      }
    }
  }

  lemma StrippingIsIdempotent(text: string)
    ensures Stripped(Stripped(text)) == Stripped(text)
  {
    StrippedNeverLeads(text);
  }

  /**
   Exactly the leading blocks go: the result is the trimmed rest after a run of
   well-nested blocks when that rest does not start with the tag.
   */
  lemma {:induction false} RemovesExactlyTheBlocks(text: string, rest: string)
    ensures AfterBlocks(text) == Some(rest) <==> BlocksThen(text, rest) && !Leads(rest)
    decreases |text|
  {
    RestDoesNotLead(text);
    if Leads(text) {
      var candidate := StripLeft(text);
      AfterOneBlock(text);
      if BlockEnd(candidate).Some? {
        var n := BlockEnd(candidate).value;
        BlockEndExact(candidate, n);
        RemovesExactlyTheBlocks(candidate[n..], rest);
      }
      if b, n :| (StartsBlock(MarksOf(candidate), b) && n == BlockWidth(MarksOf(candidate), b)
                  && 0 < n <= |candidate| && BlocksThen(candidate[n..], rest)) {
        BlockEndExact(candidate, n);
      }
    }
  }

  /** The text is a run of well-nested blocks followed by this rest, which no block leads. */
  ghost predicate LeavesRest(text: string, rest: string) {
    BlocksThen(text, rest) && !Leads(rest)
  }

  /**
   A reply that blocks lead becomes the rest behind them, trimmed on both
   sides, and nothing when there is no such rest; any other comes back as it is.
   */
  lemma StrippedExact(text: string, r: string)
    ensures r == Stripped(text) <==>
      if !Leads(text) then r == text
      else if exists rest :: LeavesRest(text, rest) then
        exists rest, i, j :: LeavesRest(text, rest) && IsTrimmed(rest, r, i, j)
      else r == ""
  {
    if rest :| LeavesRest(text, rest) {
      RemovesExactlyTheBlocks(text, rest);
      var i, j := StripIsTrimmed(rest);
      if other, k, l :| LeavesRest(text, other) && IsTrimmed(other, r, k, l) {
        RemovesExactlyTheBlocks(text, other);
        TrimmedIsUnique(rest, r, k, l, Strip(rest), i, j);
      }
    } else if AfterBlocks(text).Some? {
      RemovesExactlyTheBlocks(text, AfterBlocks(text).value);
      assert LeavesRest(text, AfterBlocks(text).value);
    }
  }

  // Message content

  /** One entry of a list-shaped content. */
  datatype Part = Text(text: string) | WithText(text: string, other: string) | Unrecognised(value: string)

  datatype Content = Whole(text: string) | Parts(parts: seq<Part>)

  function StripPart(p: Part): Part {
    match p
    case Text(text) => Text(Stripped(text))
    case WithText(text, other) => WithText(Stripped(text), other)
    case Unrecognised(_) => p
  }

  function StripReasoning(c: Content): Content {
    match c
    case Whole(text) => Whole(Stripped(text))
    case Parts(parts) => Parts(seq(|parts|, i requires 0 <= i < |parts| => StripPart(parts[i])))
  }

  predicate PartLeads(p: Part) {
    !p.Unrecognised? && Leads(p.text)
  }

  /**
   No text of the content, whatever its shape, starts with the tag; stripping
   again changes nothing. Every part stays in its place with all else it holds.
   */
  lemma NoReasoningSurvives(c: Content)
    ensures match StripReasoning(c)
            case Whole(text) => !Leads(text)
            case Parts(parts) => forall i :: 0 <= i < |parts| ==> !PartLeads(parts[i])
    ensures StripReasoning(StripReasoning(c)) == StripReasoning(c)
    ensures match c
            case Whole(text) => StripReasoning(c) == Whole(Stripped(text))
            case Parts(parts) =>
              && StripReasoning(c).Parts? && |StripReasoning(c).parts| == |parts|
              && forall i :: 0 <= i < |parts| ==>
                   StripReasoning(c).parts[i] ==
                     if parts[i].Unrecognised? then parts[i] else parts[i].(text := Stripped(parts[i].text))
  {
    match c
    case Whole(text) => StrippedNeverLeads(text);
    case Parts(parts) =>
      var once := StripReasoning(c).parts;
      forall i | 0 <= i < |parts|
        ensures !PartLeads(once[i]) && StripPart(once[i]) == once[i]
      {
        if !parts[i].Unrecognised? {
          StrippedNeverLeads(parts[i].text);
        }
      }
      assert StripReasoning(StripReasoning(c)).parts == once;
  }
}
