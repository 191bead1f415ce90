/**
 Untrusted-data blocks: a turn's outside data as one text that can be read back
 block by block and never exceeds its cap. The fixed sentence in front of the
 blocks is a parameter: any single line that does not look like a BEGIN line.
 */
module Untrusted {
  import opened Common
  import Lines

  const MAX_SHOWN := 5
  const TRUNCATED := "\n[truncated]"
  const BEGIN := "BEGIN "
  const SOURCE := " source="
  const END := "END "
  const OMITTED := "[omitted, turn cap reached: "

  datatype UntrustedData = UntrustedData(source: string, content: string, maxChars: int)

  predicate SourceChar(c: char) {
    'A' <= c <= 'Z' || 'a' <= c <= 'z' || '0' <= c <= '9' || c == '_' || c == '.' || c == ':' || c == '-'
  }

  /** What the constructor accepts. */
  predicate Valid(b: UntrustedData) {
    && 1 <= |b.source| <= 64
    && (forall i :: 0 <= i < |b.source| ==> SourceChar(b.source[i]))
    && b.maxChars >= 1
  }

  predicate AllValid(blocks: seq<UntrustedData>) {
    forall i :: 0 <= i < |blocks| ==> Valid(blocks[i])
  }

  // The line that names what was left out

  function Decimal(n: nat): string {
    if n < 10 then ["0123456789"[n]] else Decimal(n / 10) + ["0123456789"[n % 10]]
  }

  function Listed(names: seq<string>): string {
    if names == [] then ""
    else if |names| == 1 then names[0]
    else Listed(names[..|names| - 1]) + ", " + names[|names| - 1]
  }

  function OmittedMarker(names: seq<string>): string {
    var shown := Listed(if |names| <= MAX_SHOWN then names else names[..MAX_SHOWN]);
    var extra := |names| - MAX_SHOWN;
    OMITTED + shown + (if extra > 0 then " and " + Decimal(extra) + " more" else "") + "]"
  }

  /** The room kept back for that line and the blank line before it. */
  const MARKER_RESERVE := |OMITTED| + (MAX_SHOWN * 64 + (MAX_SHOWN - 1) * 2) + |"]"| + |" and 999999999 more"| + |"\n\n"|

  // Filling the cap

  datatype Kept = Kept(source: string, content: string, cut: bool)

  datatype Filling = Filling(kept: seq<Kept>, omitted: seq<string>, remaining: int)

  function BodyOf(k: Kept): string {
    k.content + if k.cut then TRUNCATED else ""
  }

  function BeginLine(boundary: string, source: string): string {
    BEGIN + boundary + SOURCE + source
  }

  function EndLine(boundary: string): string {
    END + boundary
  }

  /** A blank line, the BEGIN line, a newline, a newline and the END line. */
  function Overhead(boundary: string, source: string): nat {
    2 + |BeginLine(boundary, source)| + 1 + 1 + |EndLine(boundary)|
  }

  /** The content under the source's own cap. */
  function Capped(b: UntrustedData): string
    requires b.maxChars >= 1
  {
    if |b.content| <= b.maxChars then b.content else b.content[..b.maxChars]
  }

  /** How a block is kept when remaining characters are left; None when its framing or its content does not fit at all. */
  function Place(b: UntrustedData, boundary: string, remaining: int): Option<Kept>
    requires b.maxChars >= 1
  {
    var content := Capped(b);
    var cut := |content| < |b.content|;
    var room := remaining - Overhead(boundary, b.source);
    if room < 0 || (content != "" && room < |TRUNCATED| + 1) then None
    else if |content| > room then Some(Kept(b.source, content[..room - |TRUNCATED|], true))
    else if cut && |content| + |TRUNCATED| > room then Some(Kept(b.source, content[..room - |TRUNCATED|], true))
    else Some(Kept(b.source, content, cut))
  }

  function Used(k: Kept, boundary: string): nat {
    Overhead(boundary, k.source) + |BodyOf(k)|
  }

  function AfterBlock(f: Filling, b: UntrustedData, boundary: string): Filling
    requires b.maxChars >= 1
  {
    match Place(b, boundary, f.remaining)
    case None => f.(omitted := f.omitted + [b.source])
    case Some(k) => f.(kept := f.kept + [k], remaining := f.remaining - Used(k, boundary))
  }

  /** The blocks placed in order. */
  function Fill(blocks: seq<UntrustedData>, boundary: string, start: Filling): Filling
    requires AllValid(blocks)
  {
    if blocks == [] then start
    else AfterBlock(Fill(blocks[..|blocks| - 1], boundary, start), blocks[|blocks| - 1], boundary)
  }

  function Sources(blocks: seq<UntrustedData>): (r: seq<string>)
    ensures |r| == |blocks|
  {
    seq(|blocks|, i requires 0 <= i < |blocks| => blocks[i].source)
  }

  function Considered(blocks: seq<UntrustedData>, maxBlocks: int): seq<UntrustedData>
    requires maxBlocks >= 1
  {
    if |blocks| <= maxBlocks then blocks else blocks[..maxBlocks]
  }

  function PastMax(blocks: seq<UntrustedData>, maxBlocks: int): seq<UntrustedData>
    requires maxBlocks >= 1
  {
    if |blocks| <= maxBlocks then [] else blocks[maxBlocks..]
  }

  function Filled(blocks: seq<UntrustedData>, preamble: string, boundary: string, total: int, maxBlocks: int): Filling
    requires AllValid(blocks) && maxBlocks >= 1
  {
    Fill(Considered(blocks, maxBlocks), boundary,
         Filling([], Sources(PastMax(blocks, maxBlocks)), total - |preamble| - MARKER_RESERVE))
  }

  // The text

  const BLANK := "\n\n"

  function Frame(k: Kept, boundary: string): string {
    BeginLine(boundary, k.source) + ['\n'] + BodyOf(k) + ['\n'] + EndLine(boundary)
  }

  /** Every kept block, each after a blank line. */
  function Frames(kept: seq<Kept>, boundary: string): string {
    if kept == [] then ""
    else Frames(kept[..|kept| - 1], boundary) + (BLANK + Frame(kept[|kept| - 1], boundary))
  }

  function Text(f: Filling, preamble: string, boundary: string): string {
    if f.remaining < 0 || (f.kept == [] && f.omitted == []) then ""
    else preamble + Frames(f.kept, boundary) + if f.omitted == [] then "" else BLANK + OmittedMarker(f.omitted)
  }

  function Rendered(blocks: seq<UntrustedData>, preamble: string, boundary: string, total: int, maxBlocks: int): string
    requires AllValid(blocks) && maxBlocks >= 1
  {
    if blocks == [] then "" else Text(Filled(blocks, preamble, boundary, total, maxBlocks), preamble, boundary)
  }

  /** Everything the boundary must not occur in: the sources and the capped contents, one under the other. */
  function Haystack(blocks: seq<UntrustedData>): string
    requires AllValid(blocks)
  {
    if blocks == [] then ""
    else
      var last := blocks[|blocks| - 1];
      var part := last.source + ['\n'] + Capped(last);
      if |blocks| == 1 then part else Haystack(blocks[..|blocks| - 1]) + ['\n'] + part
  }

  /** The first draw that occurs nowhere in the text. */
  method DrawBoundary(draws: seq<string>, haystack: string) returns (boundary: string)
    requires exists i :: 0 <= i < |draws| && !Lines.Occurs(draws[i], haystack)
    ensures boundary in draws && !Lines.Occurs(boundary, haystack)
  {
    var i := 0;
    while Lines.Occurs(draws[i], haystack)
      invariant 0 <= i < |draws|
      invariant forall j :: 0 <= j < i ==> Lines.Occurs(draws[j], haystack)
      decreases |draws| - i
    {
      i := i + 1;
    }
    boundary := draws[i];
  }

  method FillBlocks(blocks: seq<UntrustedData>, boundary: string, start: Filling) returns (f: Filling)
    requires AllValid(blocks)
    ensures f == Fill(blocks, boundary, start)
  {
    var kept, omitted, remaining := start.kept, start.omitted, start.remaining;
    for i := 0 to |blocks|
      invariant Filling(kept, omitted, remaining) == Fill(blocks[..i], boundary, start)
    {
      assert blocks[..i + 1][..i] == blocks[..i];
      match Place(blocks[i], boundary, remaining) {
        case None => omitted := omitted + [blocks[i].source];
        case Some(k) =>
          remaining := remaining - Used(k, boundary);
          kept := kept + [k];
      }
    }
    assert blocks[..|blocks|] == blocks;
    f := Filling(kept, omitted, remaining);
  }

  method Assemble(f: Filling, preamble: string, boundary: string) returns (text: string)
    ensures text == Text(f, preamble, boundary)
  {
    if f.remaining < 0 || (f.kept == [] && f.omitted == []) {
      return "";
    }
    text := preamble;
    for i := 0 to |f.kept|
      invariant text == preamble + Frames(f.kept[..i], boundary)
    {
      assert f.kept[..i + 1][..i] == f.kept[..i];
      text := text + (BLANK + Frame(f.kept[i], boundary));
    }
    assert f.kept[..|f.kept|] == f.kept;
    if f.omitted != [] {
      text := text + (BLANK + OmittedMarker(f.omitted));
    }
  }

  datatype Refusal = BadTotal | BadMaxBlocks

  /** The turn's blocks as one text. The draws are what the boundary factory yields, one of them unused by the blocks. */
  method RenderUntrustedBlocks(blocks: seq<UntrustedData>, preamble: string, total: int, maxBlocks: int, draws: seq<string>)
    returns (r: Result<string, Refusal>, boundary: string)
    requires AllValid(blocks)
    requires maxBlocks >= 1 && blocks != [] ==>
      exists i :: 0 <= i < |draws| && !Lines.Occurs(draws[i], Haystack(Considered(blocks, maxBlocks)))
    ensures total < 1 ==> r == Err(BadTotal)
    ensures total >= 1 && maxBlocks < 1 ==> r == Err(BadMaxBlocks)
    ensures total >= 1 && maxBlocks >= 1 ==> r == Ok(Rendered(blocks, preamble, boundary, total, maxBlocks))
    ensures r.Ok? && blocks != [] ==> boundary in draws && !Lines.Occurs(boundary, Haystack(Considered(blocks, maxBlocks)))
  {
    boundary := "";
    if total < 1 {
      return Err(BadTotal), boundary;
    }
    if maxBlocks < 1 {
      return Err(BadMaxBlocks), boundary;
    }
    if blocks == [] {
      return Ok(""), boundary;
    }
    var considered := Considered(blocks, maxBlocks);
    boundary := DrawBoundary(draws, Haystack(considered));
    var start := Filling([], Sources(PastMax(blocks, maxBlocks)), total - |preamble| - MARKER_RESERVE);
    var f := FillBlocks(considered, boundary, start);
    var text := Assemble(f, preamble, boundary);
    r := Ok(text);
  }
}
