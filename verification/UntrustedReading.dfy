/**
 What the rendered blocks promise: a reader who knows the boundary gets back
 exactly the kept blocks, each holding a prefix of its source's content, and
 the whole text stays within its cap.
 */
module UntrustedReading {
  import opened Common
  import Lines
  import opened Untrusted

  // The reader the preamble describes

  function BeginPrefix(boundary: string): string {
    BEGIN + boundary + SOURCE
  }

  /** Number of lines before the first END line. */
  function BeforeEnd(lines: seq<string>, boundary: string): (n: nat)
    ensures n <= |lines|
    ensures n < |lines| ==> lines[n] == EndLine(boundary)
  {
    if lines == [] || lines[0] == EndLine(boundary) then 0 else 1 + BeforeEnd(lines[1..], boundary)
  }

  /** The blocks of a text, as source and body: a BEGIN line opens one, the next END line closes it, other lines are skipped. */
  function Parse(lines: seq<string>, boundary: string): seq<(string, string)>
    decreases |lines|
  {
    if lines == [] then []
    else if BeginPrefix(boundary) <= lines[0] then
      var inside := lines[1..];
      var n := BeforeEnd(inside, boundary);
      if n == |inside| then []
      else [(lines[0][|BeginPrefix(boundary)|..], Lines.Join(inside[..n]))] + Parse(inside[n + 1..], boundary)
    else Parse(lines[1..], boundary)
  }

  /** Whatever lines follow, these lines are read as these blocks. */
  ghost predicate ReadsAs(lines: seq<string>, boundary: string, blocks: seq<(string, string)>) {
    forall rest :: Parse(lines + rest, boundary) == blocks + Parse(rest, boundary)
  }

  lemma ReadsAppend(a: seq<string>, b: seq<string>, boundary: string, xs: seq<(string, string)>, ys: seq<(string, string)>)
    requires ReadsAs(a, boundary, xs) && ReadsAs(b, boundary, ys)
    ensures ReadsAs(a + b, boundary, xs + ys)
  {
    forall rest: seq<string>
      ensures Parse(a + b + rest, boundary) == xs + ys + Parse(rest, boundary)
    {
      assert a + b + rest == a + (b + rest);
      assert Parse(a + (b + rest), boundary) == xs + Parse(b + rest, boundary);
      PairsAssociate(xs, ys, Parse(rest, boundary));
    }
  }

  lemma PairsAssociate(xs: seq<(string, string)>, ys: seq<(string, string)>, zs: seq<(string, string)>)
    ensures xs + ys + zs == xs + (ys + zs)
  {
  }

  lemma ReadsSkipped(line: string, boundary: string)
    requires !(BEGIN <= line)
    ensures ReadsAs([line], boundary, [])
  {
    forall rest: seq<string>
      ensures Parse([line] + rest, boundary) == [] + Parse(rest, boundary)
    {
      assert ([line] + rest)[1..] == rest;
      assert BeginPrefix(boundary)[..|BEGIN|] == BEGIN;
    }
  }

  lemma {:induction false} FirstEnd(body: seq<string>, rest: seq<string>, boundary: string)
    requires EndLine(boundary) !in body
    ensures BeforeEnd(body + [EndLine(boundary)] + rest, boundary) == |body|
  {
    var all := body + [EndLine(boundary)] + rest;
    if body != [] {
      assert all[1..] == body[1..] + [EndLine(boundary)] + rest;
      FirstEnd(body[1..], rest, boundary);
    }
  }

  lemma ReadsBlock(source: string, body: seq<string>, boundary: string)
    requires EndLine(boundary) !in body
    ensures ReadsAs([BeginLine(boundary, source)] + body + [EndLine(boundary)], boundary, [(source, Lines.Join(body))])
  {
    var lines := [BeginLine(boundary, source)] + body + [EndLine(boundary)];
    assert BeginLine(boundary, source) == BeginPrefix(boundary) + source;
    forall rest: seq<string>
      ensures Parse(lines + rest, boundary) == [(source, Lines.Join(body))] + Parse(rest, boundary)
    {
      var inside := body + [EndLine(boundary)] + rest;
      assert lines + rest == [BeginLine(boundary, source)] + inside;
      assert (lines + rest)[1..] == inside;
      FirstEnd(body, rest, boundary);
      assert inside[..|body|] == body && inside[|body| + 1..] == rest;
    }
  }

  // The lines of the rendered text

  predicate ReadableBoundary(boundary: string, kept: seq<Kept>) {
    && Lines.OneLine(boundary)
    && forall i :: 0 <= i < |kept| ==> Lines.OneLine(kept[i].source) && !Lines.Occurs(boundary, kept[i].content)
  }

  function Pairs(kept: seq<Kept>): seq<(string, string)> {
    if kept == [] then []
    else Pairs(kept[..|kept| - 1]) + [(kept[|kept| - 1].source, BodyOf(kept[|kept| - 1]))]
  }

  lemma EndLineNotInBody(k: Kept, boundary: string)
    requires !Lines.Occurs(boundary, k.content)
    ensures EndLine(boundary) !in Lines.Split(BodyOf(k))
  {
    var lines := Lines.Split(k.content);
    forall i | 0 <= i < |lines| ensures lines[i] != EndLine(boundary) {
      if lines[i] == EndLine(boundary) {
        assert Lines.OccursAt(boundary, EndLine(boundary), |END|);
        Lines.OccursInLine(boundary, k.content, i);
      }
    }
    if k.cut {
      var marker := TRUNCATED[1..];
      assert BodyOf(k) == k.content + ['\n'] + marker;
      Lines.SplitAt(k.content, marker);
      assert Lines.OneLine(marker);
      Lines.SplitOneLine(marker);
      assert marker[0] == '[';
    } else {
      assert BodyOf(k) == k.content;
    }
  }

  lemma FrameLines(k: Kept, boundary: string)
    requires Lines.OneLine(boundary) && Lines.OneLine(k.source)
    ensures Lines.Split(Frame(k, boundary)) ==
            [BeginLine(boundary, k.source)] + Lines.Split(BodyOf(k)) + [EndLine(boundary)]
  {
    var begin, end := BeginLine(boundary, k.source), EndLine(boundary);
    assert Lines.OneLine(begin) && Lines.OneLine(end);
    Lines.SplitOneLine(begin);
    Lines.SplitOneLine(end);
    Lines.SplitAt(begin + ['\n'] + BodyOf(k), end);
    Lines.SplitAt(begin, BodyOf(k));
  }

  lemma FrameReads(k: Kept, boundary: string)
    requires Lines.OneLine(boundary) && Lines.OneLine(k.source) && !Lines.Occurs(boundary, k.content)
    ensures ReadsAs(Lines.Split(Frame(k, boundary)), boundary, [(k.source, BodyOf(k))])
  {
    FrameLines(k, boundary);
    EndLineNotInBody(k, boundary);
    ReadsBlock(k.source, Lines.Split(BodyOf(k)), boundary);
    Lines.JoinSplit(BodyOf(k));
  }

  /** A blank line between two texts adds one empty line. */
  lemma SplitAtBlank(a: string, r: string)
    ensures Lines.Split(a + (BLANK + r)) == Lines.Split(a) + [""] + Lines.Split(r)
  {
    assert a + (BLANK + r) == a + ['\n'] + (['\n'] + r);
    Lines.SplitAt(a, ['\n'] + r);
    assert ['\n'] + r == "" + ['\n'] + r;
    Lines.SplitAt("", r);
  }

  lemma NextFrameReads(before: string, k: Kept, boundary: string, xs: seq<(string, string)>)
    requires ReadsAs(Lines.Split(before), boundary, xs)
    requires Lines.OneLine(boundary) && Lines.OneLine(k.source) && !Lines.Occurs(boundary, k.content)
    ensures ReadsAs(Lines.Split(before + (BLANK + Frame(k, boundary))), boundary, xs + [(k.source, BodyOf(k))])
  {
    FrameReads(k, boundary);
    ReadsSkipped("", boundary);
    SplitAtBlank(before, Frame(k, boundary));
    ReadsAppend(Lines.Split(before), [""], boundary, xs, []);
    assert xs + [] == xs;
    ReadsAppend(Lines.Split(before) + [""], Lines.Split(Frame(k, boundary)), boundary, xs, [(k.source, BodyOf(k))]);
  }

  lemma {:induction false} FramesRead(kept: seq<Kept>, preamble: string, boundary: string)
    requires ReadableBoundary(boundary, kept) && Lines.OneLine(preamble) && !(BEGIN <= preamble)
    ensures ReadsAs(Lines.Split(preamble + Frames(kept, boundary)), boundary, Pairs(kept))
  {
    if kept == [] {
      assert preamble + Frames(kept, boundary) == preamble;
      Lines.SplitOneLine(preamble);
      ReadsSkipped(preamble, boundary);
    } else {
      var front, last := kept[..|kept| - 1], kept[|kept| - 1];
      var before, frame := Frames(front, boundary), BLANK + Frame(last, boundary);
      assert ReadableBoundary(boundary, front);
      FramesRead(front, preamble, boundary);
      NextFrameReads(preamble + before, last, boundary, Pairs(front));
      assert preamble + (before + frame) == preamble + before + frame;
    }
  }

  // The line of omitted sources

  lemma {:induction false} DecimalIsOneLine(n: nat)
    ensures Lines.OneLine(Decimal(n))
  {
    if n >= 10 {
      DecimalIsOneLine(n / 10);
    }
  }

  predicate AllOneLine(names: seq<string>) {
    forall i :: 0 <= i < |names| ==> Lines.OneLine(names[i])
  }

  lemma {:induction false} ListedIsOneLine(names: seq<string>)
    requires AllOneLine(names)
    ensures Lines.OneLine(Listed(names))
  {
    if |names| > 1 {
      ListedIsOneLine(names[..|names| - 1]);
      assert Lines.OneLine(", ");
    }
  }

  lemma MarkerIsOneLine(names: seq<string>)
    requires AllOneLine(names)
    ensures Lines.OneLine(OmittedMarker(names)) && !(BEGIN <= OmittedMarker(names))
  {
    var first := if |names| <= MAX_SHOWN then names else names[..MAX_SHOWN];
    ListedIsOneLine(first);
    assert Lines.OneLine(OMITTED) && OMITTED[0] == '[';
    if |names| > MAX_SHOWN {
      DecimalIsOneLine(|names| - MAX_SHOWN);
      assert Lines.OneLine(" and ") && Lines.OneLine(" more");
    }
    assert OmittedMarker(names)[0] == OMITTED[0] != BEGIN[0];
  }

  lemma ReadToTheEnd(lines: seq<string>, boundary: string, blocks: seq<(string, string)>)
    requires ReadsAs(lines, boundary, blocks)
    ensures Parse(lines, boundary) == blocks
  {
    assert lines + [] == lines;
    assert Parse(lines + [], boundary) == blocks + Parse([], boundary);
  }

  lemma MarkerReads(text: string, names: seq<string>, boundary: string, blocks: seq<(string, string)>)
    requires ReadsAs(Lines.Split(text), boundary, blocks) && AllOneLine(names)
    ensures ReadsAs(Lines.Split(text + (BLANK + OmittedMarker(names))), boundary, blocks)
  {
    var marker := OmittedMarker(names);
    MarkerIsOneLine(names);
    Lines.SplitOneLine(marker);
    SplitAtBlank(text, marker);
    ReadsSkipped("", boundary);
    ReadsSkipped(marker, boundary);
    ReadsAppend(Lines.Split(text), [""], boundary, blocks, []);
    assert blocks + [] == blocks;
    ReadsAppend(Lines.Split(text) + [""], [marker], boundary, blocks, []);
  }

  /** Reading the text with its boundary gives back the kept blocks, in order. */
  lemma TextReads(f: Filling, preamble: string, boundary: string)
    requires ReadableBoundary(boundary, f.kept) && AllOneLine(f.omitted)
    requires Lines.OneLine(preamble) && !(BEGIN <= preamble) && f.remaining >= 0
    ensures Parse(Lines.Split(Text(f, preamble, boundary)), boundary) == Pairs(f.kept)
  {
    if f.kept == [] && f.omitted == [] {
      Lines.SplitOneLine("");
      ReadsSkipped("", boundary);
      ReadToTheEnd([""], boundary, []);
    } else {
      var text := preamble + Frames(f.kept, boundary);
      FramesRead(f.kept, preamble, boundary);
      if f.omitted == [] {
        assert text + "" == text;
        ReadToTheEnd(Lines.Split(text), boundary, Pairs(f.kept));
      } else {
        MarkerReads(text, f.omitted, boundary, Pairs(f.kept));
        ReadToTheEnd(Lines.Split(text + (BLANK + OmittedMarker(f.omitted))), boundary, Pairs(f.kept));
      }
    }
  }

  // What is kept

  lemma PlaceFits(b: UntrustedData, boundary: string, remaining: int)
    requires Valid(b) && Place(b, boundary, remaining).Some?
    ensures
      var k := Place(b, boundary, remaining).value;
      && k.source == b.source
      && k.content <= Capped(b) <= b.content
      && (k.cut <==> k.content != b.content)
      && Used(k, boundary) <= remaining
  {
  }

  /** A way to keep some of a block's content, marked when it is not all of it, in the room that remains. */
  predicate Fits(b: UntrustedData, boundary: string, remaining: int, k: Kept)
    requires b.maxChars >= 1
  {
    && k.source == b.source && k.content <= Capped(b)
    && (k.cut <==> k.content != b.content)
    && Used(k, boundary) <= remaining
  }

  /**
   A block that is kept keeps as much of its content as fits. It is left out
   exactly when its framing does not fit, or its content is not empty and there
   is no room for one character and the marker.
   */
  lemma PlaceIsLongest(b: UntrustedData, boundary: string, remaining: int, k: Kept)
    requires Valid(b)
    ensures
      var room := remaining - Overhead(boundary, b.source);
      Place(b, boundary, remaining).None? <==> room < 0 || (b.content != "" && room <= |TRUNCATED|)
    ensures
      var placed := Place(b, boundary, remaining);
      placed.Some? && Fits(b, boundary, remaining, k) ==> |k.content| <= |placed.value.content|
  {
  }

  /** A concrete miss: two characters that fit uncut into five characters of room, and are left out. */
  lemma FitsUncutButIsLeftOut(boundary: string)
    ensures var b := UntrustedData("notes", "ok", 2000);
      var remaining := Overhead(boundary, b.source) + 5;
      && Valid(b) && Fits(b, boundary, remaining, Kept(b.source, b.content, false))
      && Place(b, boundary, remaining).None?
  {
    var b := UntrustedData("notes", "ok", 2000);
    PlaceIsLongest(b, boundary, Overhead(boundary, b.source) + 5, Kept(b.source, b.content, false));
    assert BodyOf(Kept(b.source, b.content, false)) == b.content;
  }

  /** Positions rise and each kept block holds a prefix of the content at its position, marked exactly when it was cut. */
  predicate Faithful(kept: seq<Kept>, blocks: seq<UntrustedData>, at: seq<nat>)
    requires AllValid(blocks)
  {
    && |at| == |kept|
    && (forall i, j :: 0 <= i < j < |at| ==> at[i] < at[j])
    && (forall j :: 0 <= j < |at| ==>
          && at[j] < |blocks|
          && kept[j].source == blocks[at[j]].source
          && kept[j].content <= Capped(blocks[at[j]]) <= blocks[at[j]].content
          && (kept[j].cut <==> kept[j].content != blocks[at[j]].content))
  }

  lemma FaithfulExtends(kept: seq<Kept>, blocks: seq<UntrustedData>, at: seq<nat>, k: Kept, boundary: string, remaining: int)
    requires AllValid(blocks) && blocks != [] && Faithful(kept, blocks[..|blocks| - 1], at)
    requires Place(blocks[|blocks| - 1], boundary, remaining) == Some(k)
    ensures Faithful(kept + [k], blocks, at + [|blocks| - 1])
  {
    PlaceFits(blocks[|blocks| - 1], boundary, remaining);
  }

  lemma FramesSize(kept: seq<Kept>, k: Kept, boundary: string)
    ensures |Frames(kept + [k], boundary)| == |Frames(kept, boundary)| + Used(k, boundary)
  {
    assert (kept + [k])[..|kept|] == kept;
  }

  /** Every considered block is kept or omitted, and the room used never exceeds the room there was. */
  lemma {:induction false} FillStaysWithin(blocks: seq<UntrustedData>, boundary: string, start: Filling)
    requires AllValid(blocks) && start.kept == []
    ensures
      var f := Fill(blocks, boundary, start);
      && |f.kept| + |f.omitted| == |start.omitted| + |blocks|
      && (start.remaining >= 0 ==> f.remaining >= 0)
      && (start.remaining < 0 ==> f.kept == [])
      && f.remaining + |Frames(f.kept, boundary)| == start.remaining
  {
    if blocks != [] {
      var front, b := blocks[..|blocks| - 1], blocks[|blocks| - 1];
      FillStaysWithin(front, boundary, start);
      var f := Fill(front, boundary, start);
      var placed := Place(b, boundary, f.remaining);
      if placed.Some? {
        PlaceFits(b, boundary, f.remaining);
        FramesSize(f.kept, placed.value, boundary);
      }
    }
  }

  // Which blocks are kept

  /** There is room for the framing and, where there is content, for one character of it and the marker. */
  predicate HasRoom(b: UntrustedData, boundary: string, remaining: int) {
    var room := remaining - Overhead(boundary, b.source);
    room >= 0 && (b.content != "" ==> room > |TRUNCATED|)
  }

  /** Block i, before which n were kept, is kept exactly when they left it room, and then nothing longer would fit. */
  ghost predicate KeptWhereRoom(b: UntrustedData, boundary: string, room: int, kept: seq<Kept>, at: seq<nat>, i: nat, n: nat)
    requires b.maxChars >= 1 && n <= |kept| == |at|
  {
    var left := room - |Frames(kept[..n], boundary)|;
    && (HasRoom(b, boundary, left) <==> n < |at| && at[n] == i)
    && (n < |at| && at[n] == i ==>
          Fits(b, boundary, left, kept[n]) && forall k :: Fits(b, boundary, left, k) ==> |k.content| <= |kept[n].content|)
  }

  ghost predicate Greedy(blocks: seq<UntrustedData>, boundary: string, room: int, kept: seq<Kept>, at: seq<nat>)
    requires AllValid(blocks) && |kept| == |at|
  {
    forall i: nat, n: nat :: i < |blocks| && IsRank(at, i, n) ==> KeptWhereRoom(blocks[i], boundary, room, kept, at, i, n)
  }

  /** The names are those of the other blocks, in order. */
  predicate NamesTheRest(blocks: seq<UntrustedData>, names: seq<string>, at: seq<nat>, out: seq<nat>) {
    && |names| == |out|
    && (forall i, j :: 0 <= i < j < |out| ==> out[i] < out[j])
    && (forall j :: 0 <= j < |out| ==> out[j] < |blocks| && names[j] == blocks[out[j]].source)
    && (forall i: nat :: i < |blocks| ==> (i in at <==> i !in out))
  }

  lemma EarlierStays(
    b: UntrustedData, boundary: string, room: int, kept: seq<Kept>, at: seq<nat>, more: seq<Kept>, positions: seq<nat>, n: nat, i: nat, k: nat)
    requires b.maxChars >= 1 && |kept| == |at| && |more| == |positions|
    requires kept <= more && at <= positions && |positions| <= |at| + 1 && (|positions| == |at| + 1 ==> positions[|at|] == n)
    requires i < n && IsRank(positions, i, k)
    requires IsRank(at, i, k) ==> KeptWhereRoom(b, boundary, room, kept, at, i, k)
    ensures KeptWhereRoom(b, boundary, room, more, positions, i, k)
  {
    EarlierRank(at, positions, n, i, k);
    assert more[..k] == kept[..k];
    hide IsRank, Fits, HasRoom, Frames;
  }

  lemma GreedyStep(
    blocks: seq<UntrustedData>, boundary: string, room: int, kept: seq<Kept>, at: seq<nat>, remaining: int, last: Option<Kept>)
    requires AllValid(blocks) && blocks != [] && |kept| == |at|
    requires at == [] || at[|at| - 1] < |blocks| - 1
    requires Greedy(blocks[..|blocks| - 1], boundary, room, kept, at)
    requires remaining == room - |Frames(kept, boundary)| && last == Place(blocks[|blocks| - 1], boundary, remaining)
    ensures last.None? ==> Greedy(blocks, boundary, room, kept, at)
    ensures last.Some? ==> Greedy(blocks, boundary, room, kept + [last.value], at + [|blocks| - 1])
  {
    var n, b := |blocks| - 1, blocks[|blocks| - 1];
    var more, positions := if last.Some? then kept + [last.value] else kept, if last.Some? then at + [n] else at;
    LastIsLongest(b, boundary, remaining);
    hide Place, Fits, HasRoom, Frames;
    forall i: nat, k: nat | i <= n && IsRank(positions, i, k)
      ensures KeptWhereRoom(blocks[i], boundary, room, more, positions, i, k)
    {
      if i < n {
        assert blocks[..n][i] == blocks[i];
        hide KeptWhereRoom, IsRank;
        EarlierStays(blocks[i], boundary, room, kept, at, more, positions, n, i, k);
      } else {
        LastRank(at, positions, n, k);
        assert more[..k] == kept;
        hide IsRank, Greedy;
      }
    }
  }

  lemma LastIsLongest(b: UntrustedData, boundary: string, remaining: int)
    requires Valid(b)
    ensures var placed := Place(b, boundary, remaining);
      && (placed.Some? <==> HasRoom(b, boundary, remaining))
      && (placed.Some? ==> Fits(b, boundary, remaining, placed.value))
      && (placed.Some? ==>
            forall k :: Fits(b, boundary, remaining, k) ==> |k.content| <= |placed.value.content|)
  {
    var placed := Place(b, boundary, remaining);
    PlaceIsLongest(b, boundary, remaining, Kept(b.source, "", false));
    if placed.Some? {
      PlaceFits(b, boundary, remaining);
      forall k | Fits(b, boundary, remaining, k)
        ensures |k.content| <= |placed.value.content|
      {
        PlaceIsLongest(b, boundary, remaining, k);
      }
    }
  }

  lemma NamesStep(blocks: seq<UntrustedData>, names: seq<string>, at: seq<nat>, out: seq<nat>)
    requires blocks != [] && NamesTheRest(blocks[..|blocks| - 1], names, at, out)
    requires forall j :: 0 <= j < |at| ==> at[j] < |blocks| - 1
    ensures NamesTheRest(blocks, names, at + [|blocks| - 1], out)
    ensures NamesTheRest(blocks, names + [blocks[|blocks| - 1].source], at, out + [|blocks| - 1])
  {
    var n := |blocks| - 1;
    assert n !in out && n !in at;
    assert n in at + [n] && n in out + [n];
    assert forall i :: i in out + [n] <==> i in out || i == n;
    assert forall i :: i in at + [n] <==> i in at || i == n;
  }

  ghost predicate IsGreedy(
    blocks: seq<UntrustedData>, boundary: string, start: Filling, f: Filling, at: seq<nat>, out: seq<nat>)
    requires AllValid(blocks)
  {
    && Faithful(f.kept, blocks, at) && Greedy(blocks, boundary, start.remaining, f.kept, at)
    && start.omitted <= f.omitted && NamesTheRest(blocks, f.omitted[|start.omitted|..], at, out)
  }

  lemma PositionsBefore(blocks: seq<UntrustedData>, kept: seq<Kept>, at: seq<nat>)
    requires AllValid(blocks) && Faithful(kept, blocks, at)
    ensures |at| == |kept| && forall j :: 0 <= j < |at| ==> at[j] < |blocks|
  {
  }

  lemma KeptStep(
    blocks: seq<UntrustedData>, boundary: string, start: Filling, f: Filling, at: seq<nat>, out: seq<nat>, k: Kept)
    requires AllValid(blocks) && blocks != [] && IsGreedy(blocks[..|blocks| - 1], boundary, start, f, at, out)
    requires f.remaining + |Frames(f.kept, boundary)| == start.remaining
    requires Place(blocks[|blocks| - 1], boundary, f.remaining) == Some(k)
    ensures IsGreedy(blocks, boundary, start, AfterBlock(f, blocks[|blocks| - 1], boundary), at + [|blocks| - 1], out)
  {
    hide Place, Greedy, Faithful, NamesTheRest, Frames;
    PositionsBefore(blocks[..|blocks| - 1], f.kept, at);
    GreedyStep(blocks, boundary, start.remaining, f.kept, at, f.remaining, Some(k));
    NamesStep(blocks, f.omitted[|start.omitted|..], at, out);
    FaithfulExtends(f.kept, blocks, at, k, boundary, f.remaining);
  }

  lemma OmittedStep(
    blocks: seq<UntrustedData>, boundary: string, start: Filling, f: Filling, at: seq<nat>, out: seq<nat>)
    requires AllValid(blocks) && blocks != [] && IsGreedy(blocks[..|blocks| - 1], boundary, start, f, at, out)
    requires f.remaining + |Frames(f.kept, boundary)| == start.remaining
    requires Place(blocks[|blocks| - 1], boundary, f.remaining).None?
    ensures IsGreedy(blocks, boundary, start, AfterBlock(f, blocks[|blocks| - 1], boundary), at, out + [|blocks| - 1])
  {
    hide Place, Greedy, Faithful, NamesTheRest, Frames;
    var names, source := f.omitted[|start.omitted|..], blocks[|blocks| - 1].source;
    PositionsBefore(blocks[..|blocks| - 1], f.kept, at);
    GreedyStep(blocks, boundary, start.remaining, f.kept, at, f.remaining, None);
    NamesStep(blocks, names, at, out);
    FaithfulStays(f.kept, blocks, at);
    assert (f.omitted + [source])[|start.omitted|..] == names + [source];
  }

  /**
   The cap is filled in order: a block is kept exactly when the blocks kept
   before it leave it room, also behind one that was left out; it holds as much
   of its content as fits, marked exactly when it was cut; the names of the
   others are noted in order.
   */
  lemma {:induction false} FillIsGreedy(blocks: seq<UntrustedData>, boundary: string, start: Filling)
    returns (at: seq<nat>, out: seq<nat>)
    requires AllValid(blocks) && start.kept == []
    ensures IsGreedy(blocks, boundary, start, Fill(blocks, boundary, start), at, out)
  {
    hide *;
    if blocks == [] {
      NothingIsGreedy(boundary, start);
      at, out := [], [];
    } else {
      var front, last := blocks[..|blocks| - 1], |blocks| - 1;
      FrontIsValid(blocks);
      at, out := FillIsGreedy(front, boundary, start);
      FillStaysWithin(front, boundary, start);
      var f := Fill(front, boundary, start);
      var placed := Place(blocks[last], boundary, f.remaining);
      if placed.Some? {
        KeptStep(blocks, boundary, start, f, at, out, placed.value);
        at := at + [last];
      } else {
        OmittedStep(blocks, boundary, start, f, at, out);
        out := out + [last];
      }
      FillLast(blocks, boundary, start);
    }
  }

  lemma NothingIsGreedy(boundary: string, start: Filling)
    requires start.kept == []
    ensures IsGreedy([], boundary, start, Fill([], boundary, start), [], [])
  {
  }

  lemma FrontIsValid(blocks: seq<UntrustedData>)
    requires AllValid(blocks) && blocks != []
    ensures AllValid(blocks[..|blocks| - 1]) && Valid(blocks[|blocks| - 1]) && blocks[|blocks| - 1].maxChars >= 1
  {
  }

  lemma FillLast(blocks: seq<UntrustedData>, boundary: string, start: Filling)
    requires AllValid(blocks) && blocks != []
    ensures var last := |blocks| - 1;
      Fill(blocks, boundary, start) == AfterBlock(Fill(blocks[..last], boundary, start), blocks[last], boundary)
  {
  }

  lemma FaithfulStays(kept: seq<Kept>, blocks: seq<UntrustedData>, at: seq<nat>)
    requires AllValid(blocks) && blocks != [] && Faithful(kept, blocks[..|blocks| - 1], at)
    ensures Faithful(kept, blocks, at)
  {
  }

  lemma {:induction false} OmittedNamesAreSources(blocks: seq<UntrustedData>, boundary: string, start: Filling)
    requires AllValid(blocks)
    requires forall i :: 0 <= i < |start.omitted| ==> PlainName(start.omitted[i])
    ensures forall i :: 0 <= i < |Fill(blocks, boundary, start).omitted| ==> PlainName(Fill(blocks, boundary, start).omitted[i])
  {
    if blocks != [] {
      OmittedNamesAreSources(blocks[..|blocks| - 1], boundary, start);
      assert PlainName(blocks[|blocks| - 1].source);
    }
  }

  predicate PlainName(name: string) {
    |name| <= 64 && Lines.OneLine(name)
  }

  /** What occurs in one of the contents occurs in the haystack. */
  /** The last content ends the haystack; what came before starts it. */
  lemma HaystackParts(blocks: seq<UntrustedData>) returns (before: string, after: string)
    requires AllValid(blocks) && blocks != []
    ensures Haystack(blocks) == before + Capped(blocks[|blocks| - 1]) + ""
    ensures |blocks| > 1 ==> Haystack(blocks) == "" + Haystack(blocks[..|blocks| - 1]) + after
  {
    var last := blocks[|blocks| - 1];
    hide Capped;
    after := ['\n'] + (last.source + ['\n'] + Capped(last));
    before := last.source + ['\n'];
    if |blocks| > 1 {
      var front := Haystack(blocks[..|blocks| - 1]);
      before := front + ['\n'] + before;
      assert "" + front + after == Haystack(blocks);
    }
  }

  lemma {:induction false} ContentIsInHaystack(blocks: seq<UntrustedData>, part: string, i: nat)
    requires AllValid(blocks) && i < |blocks| && Lines.Occurs(part, Capped(blocks[i]))
    ensures Lines.Occurs(part, Haystack(blocks))
    decreases |blocks|
  {
    hide Haystack, Capped, Lines.Occurs;
    var n := |blocks| - 1;
    var before, after := HaystackParts(blocks);
    if i == n {
      Lines.OccursInside(part, Capped(blocks[n]), before, "");
    } else {
      ContentIsInHaystack(blocks[..n], part, i);
      Lines.OccursInside(part, Haystack(blocks[..n]), "", after);
    }
  }

  lemma KeptIsReadable(blocks: seq<UntrustedData>, kept: seq<Kept>, at: seq<nat>, boundary: string)
    requires AllValid(blocks) && Faithful(kept, blocks, at)
    requires Lines.OneLine(boundary) && !Lines.Occurs(boundary, Haystack(blocks))
    ensures ReadableBoundary(boundary, kept)
  {
    forall j | 0 <= j < |kept|
      ensures Lines.OneLine(kept[j].source) && !Lines.Occurs(boundary, kept[j].content)
    {
      var i := at[j];
      assert Valid(blocks[i]) && kept[j].source == blocks[i].source && kept[j].content <= Capped(blocks[i]);
      hide Haystack, Capped, Lines.Occurs, Faithful;
      PrefixIsInHaystack(blocks, boundary, i, kept[j].content);
    }
  }

  lemma PrefixIsInHaystack(blocks: seq<UntrustedData>, part: string, i: nat, prefix: string)
    requires AllValid(blocks) && i < |blocks| && prefix <= Capped(blocks[i])
    ensures Lines.Occurs(part, prefix) ==> Lines.Occurs(part, Haystack(blocks))
  {
    var content := Capped(blocks[i]);
    assert content == "" + prefix + content[|prefix|..];
    hide Haystack, Capped, Lines.Occurs;
    if Lines.Occurs(part, prefix) {
      Lines.OccursInside(part, prefix, "", content[|prefix|..]);
      ContentIsInHaystack(blocks, part, i);
    }
  }

  lemma ConsideredIsValid(blocks: seq<UntrustedData>, maxBlocks: int)
    requires AllValid(blocks) && maxBlocks >= 1
    ensures AllValid(Considered(blocks, maxBlocks))
    ensures forall i :: 0 <= i < |PastMax(blocks, maxBlocks)| ==> PlainName(Sources(PastMax(blocks, maxBlocks))[i])
  {
    forall i | 0 <= i < |PastMax(blocks, maxBlocks)|
      ensures PlainName(Sources(PastMax(blocks, maxBlocks))[i])
    {
      assert Valid(blocks[maxBlocks + i]);
    }
  }

  /** How many of the blocks are looked at. */
  function Looked(blocks: seq<UntrustedData>, maxBlocks: int): (n: nat)
    requires maxBlocks >= 1
    ensures n <= |blocks|
  {
    if |blocks| <= maxBlocks then |blocks| else maxBlocks
  }

  /**
   Reading the rendered text with its boundary gives exactly the kept blocks in
   order, for any content: the boundary occurs in none of it. Of the first
   maxBlocks these are the ones there was room for when their turn came; all
   others are noted as omitted, the blocks past the maximum first.
   */
  lemma RenderingIsUndone(blocks: seq<UntrustedData>, preamble: string, boundary: string, total: int, maxBlocks: int)
    returns (at: seq<nat>, out: seq<nat>)
    requires AllValid(blocks) && blocks != [] && maxBlocks >= 1
    requires Lines.OneLine(preamble) && !(BEGIN <= preamble) && Lines.OneLine(boundary)
    requires !Lines.Occurs(boundary, Haystack(Considered(blocks, maxBlocks)))
    ensures
      var f := Filled(blocks, preamble, boundary, total, maxBlocks);
      Parse(Lines.Split(Rendered(blocks, preamble, boundary, total, maxBlocks)), boundary) == Pairs(f.kept)
    ensures
      var f := Filled(blocks, preamble, boundary, total, maxBlocks);
      var n := Looked(blocks, maxBlocks);
      && Faithful(f.kept, blocks[..n], at)
      && Greedy(blocks[..n], boundary, total - |preamble| - MARKER_RESERVE, f.kept, at)
      && |blocks| - n <= |f.omitted|
      && f.omitted[..|blocks| - n] == seq(|blocks| - n, i requires 0 <= i < |blocks| - n => blocks[n + i].source)
      && NamesTheRest(blocks[..n], f.omitted[|blocks| - n..], at, out)
  {
    var n := Looked(blocks, maxBlocks);
    var past := seq(|blocks| - n, i requires 0 <= i < |blocks| - n => blocks[n + i].source);
    var start := Filling([], past, total - |preamble| - MARKER_RESERVE);
    ConsideredIs(blocks, preamble, boundary, total, maxBlocks, past);
    hide *;
    at, out := FillIsGreedy(blocks[..n], boundary, start);
    FilledReads(blocks[..n], boundary, start, at, preamble);
    OmittedStart(blocks[..n], boundary, start, Fill(blocks[..n], boundary, start), at, out);
  }

  lemma OmittedStart(blocks: seq<UntrustedData>, boundary: string, start: Filling, f: Filling, at: seq<nat>, out: seq<nat>)
    requires AllValid(blocks) && IsGreedy(blocks, boundary, start, f, at, out)
    ensures Faithful(f.kept, blocks, at) && Greedy(blocks, boundary, start.remaining, f.kept, at)
    ensures |start.omitted| <= |f.omitted| && f.omitted[..|start.omitted|] == start.omitted
    ensures NamesTheRest(blocks, f.omitted[|start.omitted|..], at, out)
  {
  }

  /** The first maxBlocks are filled in, behind the names of all others. */
  lemma ConsideredIs(
    blocks: seq<UntrustedData>, preamble: string, boundary: string, total: int, maxBlocks: int, past: seq<string>)
    requires AllValid(blocks) && blocks != [] && maxBlocks >= 1
    requires var n := Looked(blocks, maxBlocks);
      past == seq(|blocks| - n, i requires 0 <= i < |blocks| - n => blocks[n + i].source)
    ensures var n := Looked(blocks, maxBlocks);
      var start := Filling([], past, total - |preamble| - MARKER_RESERVE);
      && AllValid(blocks[..n]) && Considered(blocks, maxBlocks) == blocks[..n] && |past| == |blocks| - n
      && (forall i :: 0 <= i < |past| ==> PlainName(past[i]))
      && Filled(blocks, preamble, boundary, total, maxBlocks) == Fill(blocks[..n], boundary, start)
      && Rendered(blocks, preamble, boundary, total, maxBlocks) == Text(Fill(blocks[..n], boundary, start), preamble, boundary)
  {
    ConsideredIsValid(blocks, maxBlocks);
    assert Sources(PastMax(blocks, maxBlocks)) == past;
    assert Considered(blocks, maxBlocks) == blocks[..Looked(blocks, maxBlocks)];
    hide Fill, Text, AllValid, PlainName;
  }

  lemma FilledReads(blocks: seq<UntrustedData>, boundary: string, start: Filling, at: seq<nat>, preamble: string)
    requires AllValid(blocks) && start.kept == [] && Faithful(Fill(blocks, boundary, start).kept, blocks, at)
    requires Lines.OneLine(preamble) && !(BEGIN <= preamble) && Lines.OneLine(boundary)
    requires !Lines.Occurs(boundary, Haystack(blocks))
    requires forall i :: 0 <= i < |start.omitted| ==> PlainName(start.omitted[i])
    ensures var f := Fill(blocks, boundary, start);
      Parse(Lines.Split(Text(f, preamble, boundary)), boundary) == Pairs(f.kept)
  {
    var f := Fill(blocks, boundary, start);
    FillStaysWithin(blocks, boundary, start);
    KeptIsReadable(blocks, f.kept, at, boundary);
    OmittedNamesAreSources(blocks, boundary, start);
    hide Fill, Parse, Pairs, Text, Faithful, Haystack, ReadableBoundary;
    FillingReads(f, preamble, boundary);
  }

  lemma FillingReads(f: Filling, preamble: string, boundary: string)
    requires ReadableBoundary(boundary, f.kept) && AllOneLine(f.omitted)
    requires Lines.OneLine(preamble) && !(BEGIN <= preamble)
    requires f.remaining < 0 ==> f.kept == []
    ensures Parse(Lines.Split(Text(f, preamble, boundary)), boundary) == Pairs(f.kept)
  {
    if f.remaining >= 0 {
      TextReads(f, preamble, boundary);
    } else {
      Lines.SplitOneLine("");
      assert [""][1..] == [];
    }
  }

  // The size of the text

  function Power10(d: nat): nat {
    if d == 0 then 1 else 10 * Power10(d - 1)
  }

  lemma {:induction false} DecimalLength(n: nat, d: nat)
    requires d >= 1
    ensures n < Power10(d) <==> |Decimal(n)| <= d
    decreases d
  {
    if d == 1 {
      assert Power10(1) == 10 * Power10(0) == 10;
    } else if n >= 10 {
      DecimalLength(n / 10, d - 1);
    } else {
      assert Power10(d) == 10 * Power10(d - 1);
      PowerPositive(d - 1);
    }
  }

  lemma {:induction false} PowerPositive(d: nat)
    ensures Power10(d) >= 1
  {
    if d > 0 {
      PowerPositive(d - 1);
    }
  }

  /** A count has at most nine digits exactly below a thousand million. */
  lemma NineDigits(n: nat)
    ensures |Decimal(n)| <= 9 <==> n < 1_000_000_000
  {
    DecimalLength(n, 9);
    assert Power10(4) == 10_000;
    assert Power10(9) == 10 * Power10(8) == 100 * Power10(7) == 1000 * Power10(6) == 10_000 * Power10(5) == 100_000 * Power10(4);
  }

  lemma {:induction false} ListedSize(names: seq<string>)
    requires forall i :: 0 <= i < |names| ==> |names[i]| <= 64
    ensures names != [] ==> |Listed(names)| <= |names| * 64 + (|names| - 1) * 2
    ensures names == [] ==> |Listed(names)| == 0
    ensures names != [] && (forall i :: 0 <= i < |names| ==> |names[i]| == 64) ==>
            |Listed(names)| == |names| * 64 + (|names| - 1) * 2
  {
    if |names| > 1 {
      ListedSize(names[..|names| - 1]);
    }
  }

  /** The most blocks for which the reserved room is enough. */
  const MOST_BLOCKS := 1_000_000_004

  lemma MarkerFits(names: seq<string>)
    requires forall i :: 0 <= i < |names| ==> |names[i]| <= 64
    requires |names| <= MOST_BLOCKS
    ensures |BLANK + OmittedMarker(names)| <= MARKER_RESERVE
  {
    ListedSize(if |names| <= MAX_SHOWN then names else names[..MAX_SHOWN]);
    if |names| > MAX_SHOWN {
      NineDigits(|names| - MAX_SHOWN);
    }
  }

  lemma MarkerOverflows(names: seq<string>)
    requires forall i :: 0 <= i < |names| ==> |names[i]| == 64
    requires |names| > MOST_BLOCKS
    ensures |BLANK + OmittedMarker(names)| > MARKER_RESERVE
  {
    ListedSize(names[..MAX_SHOWN]);
    NineDigits(|names| - MAX_SHOWN);
  }

  lemma SizeWithinCap(blocks: seq<UntrustedData>, preamble: string, boundary: string, total: int, maxBlocks: int)
    requires AllValid(blocks) && maxBlocks >= 1 && total >= 1 && |blocks| <= MOST_BLOCKS
    ensures |Rendered(blocks, preamble, boundary, total, maxBlocks)| <= total
  {
    if blocks != [] {
      var considered := Considered(blocks, maxBlocks);
      var start := Filling([], Sources(PastMax(blocks, maxBlocks)), total - |preamble| - MARKER_RESERVE);
      ConsideredIsValid(blocks, maxBlocks);
      FillStaysWithin(considered, boundary, start);
      OmittedNamesAreSources(considered, boundary, start);
      MarkerFits(Fill(considered, boundary, start).omitted);
    }
  }

  /** A list of n blocks, all of them left out, whose omission line does not fit the reserved room. */
  function Crowd(n: nat): (r: seq<UntrustedData>)
    ensures |r| == n && AllValid(r)
    ensures forall i :: 0 <= i < n ==> |r[i].source| == 64 && r[i].content == ""
  {
    seq(n, _ => UntrustedData(seq(64, _ => 'x'), "", 1))
  }

  lemma CrowdOverflows(n: nat, preamble: string, boundary: string)
    requires n > MOST_BLOCKS
    ensures
      var total := |preamble| + MARKER_RESERVE;
      |Rendered(Crowd(n), preamble, boundary, total, 1)| > total
  {
    var blocks := Crowd(n);
    var considered := Considered(blocks, 1);
    var start := Filling([], Sources(PastMax(blocks, 1)), 0);
    assert considered[..0] == [] && considered[0] == blocks[0];
    assert Place(blocks[0], boundary, 0).None?;
    assert Fill(considered[..0], boundary, start) == start;
    var f := Fill(considered, boundary, start);
    assert f == start.(omitted := start.omitted + [blocks[0].source]);
    MarkerOverflows(f.omitted);
  }

  /** The cap bounds the whole text for every list of n blocks if and only if n is at most MOST_BLOCKS. */
  lemma SizeBoundExact(n: nat)
    ensures
      (forall blocks: seq<UntrustedData>, preamble, boundary, total, maxBlocks ::
         |blocks| == n && AllValid(blocks) && maxBlocks >= 1 && total >= 1 ==>
         |Rendered(blocks, preamble, boundary, total, maxBlocks)| <= total)
      <==> n <= MOST_BLOCKS
  {
    if n <= MOST_BLOCKS {
      forall blocks: seq<UntrustedData>, preamble, boundary, total, maxBlocks
        | |blocks| == n && AllValid(blocks) && maxBlocks >= 1 && total >= 1
        ensures |Rendered(blocks, preamble, boundary, total, maxBlocks)| <= total
      {
        SizeWithinCap(blocks, preamble, boundary, total, maxBlocks);
      }
    } else {
      CrowdOverflows(n, "", "");
    }
  }
}
