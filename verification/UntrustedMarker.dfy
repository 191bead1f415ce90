/** The line that names what was left out can be read: it tells the first names and how many there are. */
module UntrustedMarker {
  import opened Untrusted

  /** What a source is called: its characters are none of those that the line is made up with. */
  predicate IsName(name: string) {
    name != "" && forall i :: 0 <= i < |name| ==> SourceChar(name[i])
  }

  predicate AreNames(names: seq<string>) {
    forall i :: 0 <= i < |names| ==> IsName(names[i])
  }

  /** Where a list of names may end. */
  predicate EndsList(rest: string) {
    rest != "" && (rest[0] == ' ' || rest[0] == ']')
  }

  // Numbers

  function Digit(c: char): int {
    c as int - '0' as int
  }

  /** The number that a row of digits stands for. */
  function Value(s: string): int {
    if s == "" then 0 else 10 * Value(s[..|s| - 1]) + Digit(s[|s| - 1])
  }

  lemma {:induction false} DecimalIsRead(n: nat)
    ensures Value(Decimal(n)) == n
  {
    var last := "0123456789"[n % 10];
    assert Digit(last) == n % 10;
    if n >= 10 {
      DecimalIsRead(n / 10);
      assert Decimal(n)[..|Decimal(n)| - 1] == Decimal(n / 10);
    } else {
      assert Value("") == 0 && Decimal(n)[..0] == "";
    }
  }

  // Lists

  lemma {:induction false} ListedFromFront(names: seq<string>)
    requires |names| > 1
    ensures Listed(names) == names[0] + ", " + Listed(names[1..])
  {
    var front, last := names[..|names| - 1], names[|names| - 1];
    if |names| == 2 {
      assert names[1..] == [last] && front == [names[0]];
    } else {
      ListedFromFront(front);
      assert names[1..][..|names| - 2] == front[1..];
    }
  }

  /** A word ends where the first character that is not part of one stands. */
  lemma SameWord(w: string, x: string, v: string, y: string)
    requires w + x == v + y
    requires forall i :: 0 <= i < |w| ==> SourceChar(w[i])
    requires forall i :: 0 <= i < |v| ==> SourceChar(v[i])
    requires x != "" && !SourceChar(x[0]) && y != "" && !SourceChar(y[0])
    ensures w == v && x == y
  {
    assert (w + x)[|w|] == x[0] && (v + y)[|v|] == y[0];
    assert forall i :: 0 <= i < |v| ==> SourceChar((v + y)[i]);
    assert forall i :: 0 <= i < |w| ==> SourceChar((w + x)[i]);
    assert (w + x)[..|w|] == w && (v + y)[..|v|] == v && (w + x)[|w|..] == x && (v + y)[|v|..] == y;
  }

  /** What follows the first name of a list. */
  function AfterFirst(names: seq<string>, rest: string): string
    requires names != []
  {
    if |names| == 1 then rest else ", " + (Listed(names[1..]) + rest)
  }

  lemma FirstName(names: seq<string>, rest: string)
    requires names != []
    ensures Listed(names) + rest == names[0] + AfterFirst(names, rest)
  {
    if |names| > 1 {
      ListedFromFront(names);
    }
  }

  lemma {:induction false} ListIsRead(a: seq<string>, x: string, b: seq<string>, y: string)
    requires a != [] && b != [] && AreNames(a) && AreNames(b) && EndsList(x) && EndsList(y)
    requires Listed(a) + x == Listed(b) + y
    ensures a == b && x == y
    decreases |a|
  {
    FirstName(a, x);
    FirstName(b, y);
    var p, q := AfterFirst(a, x), AfterFirst(b, y);
    SameWord(a[0], p, b[0], q);
    assert a == [a[0]] + a[1..] && b == [b[0]] + b[1..];
    if |a| > 1 && |b| > 1 {
      assert p[2..] == Listed(a[1..]) + x && q[2..] == Listed(b[1..]) + y;
      ListIsRead(a[1..], x, b[1..], y);
    }
  }

  // The line

  function Shown(names: seq<string>): seq<string> {
    if |names| <= MAX_SHOWN then names else names[..MAX_SHOWN]
  }

  function AndMore(n: nat): string {
    BeforeNumber() + (Decimal(n) + AfterNumber())
  }

  function BeforeNumber(): string {
    " and "
  }

  function AfterNumber(): string {
    " more" + "]"
  }

  function Tail(names: seq<string>): string {
    if |names| > MAX_SHOWN then AndMore(|names| - MAX_SHOWN) else "]"
  }

  lemma Regroup(a: string, b: string, c: string, d: string)
    ensures a + b + c + d == a + (b + (c + d))
  {
  }

  function Number(names: seq<string>): string {
    if |names| > MAX_SHOWN then BeforeNumber() + Decimal(|names| - MAX_SHOWN) + " more" else ""
  }

  lemma TailIs(names: seq<string>)
    ensures Tail(names) == Number(names) + "]" && EndsList(Tail(names))
    ensures Tail(names)[0] == ' ' <==> |names| > MAX_SHOWN
  {
    if |names| > MAX_SHOWN {
      var n := Decimal(|names| - MAX_SHOWN);
      Regroup("", BeforeNumber(), n, AfterNumber());
      Regroup(BeforeNumber(), n, " more", "]");
      hide Decimal;
    }
  }

  lemma MarkerIs(names: seq<string>)
    ensures OmittedMarker(names) == OMITTED + (Listed(Shown(names)) + Tail(names)) && EndsList(Tail(names))
    ensures Tail(names)[0] == ' ' <==> |names| > MAX_SHOWN
  {
    TailIs(names);
    hide Decimal, Listed, Tail, EndsList;
    Regroup(OMITTED, Listed(Shown(names)), Number(names), "]");
  }

  lemma SameMiddle(before: string, n: string, m: string, after: string)
    requires before + (n + after) == before + (m + after)
    ensures n == m
  {
    assert (before + (n + after))[|before|..] == n + after && (before + (m + after))[|before|..] == m + after;
    assert (n + after)[..|n|] == n && (m + after)[..|m|] == m;
  }

  lemma TailIsRead(a: seq<string>, b: seq<string>)
    requires |a| > MAX_SHOWN && |b| > MAX_SHOWN && Tail(a) == Tail(b)
    ensures |a| == |b|
  {
    hide Decimal, BeforeNumber, AfterNumber;
    var m, n := |a| - MAX_SHOWN, |b| - MAX_SHOWN;
    DecimalIsRead(m);
    DecimalIsRead(n);
    SameMiddle(BeforeNumber(), Decimal(m), Decimal(n), AfterNumber());
  }

  lemma ShownAreNames(names: seq<string>)
    requires names != [] && AreNames(names)
    ensures Shown(names) != [] && AreNames(Shown(names)) && (|names| <= MAX_SHOWN ==> Shown(names) == names)
  {
  }

  lemma MarkerTells(a: seq<string>, b: seq<string>)
    requires a != [] && b != [] && AreNames(a) && AreNames(b) && OmittedMarker(a) == OmittedMarker(b)
    ensures |a| == |b| && Shown(a) == Shown(b)
  {
    hide *;
    MarkerIs(a);
    MarkerIs(b);
    ShownAreNames(a);
    ShownAreNames(b);
    SameEnd(OMITTED, Listed(Shown(a)) + Tail(a), Listed(Shown(b)) + Tail(b));
    ListIsRead(Shown(a), Tail(a), Shown(b), Tail(b));
    if |a| > MAX_SHOWN && |b| > MAX_SHOWN {
      TailIsRead(a, b);
    }
  }

  /** The line tells the first five names, in order, and how many there are in all, and nothing else. */
  lemma MarkerIsRead(a: seq<string>, b: seq<string>)
    requires a != [] && b != [] && AreNames(a) && AreNames(b)
    ensures OmittedMarker(a) == OmittedMarker(b) <==> |a| == |b| && Shown(a) == Shown(b)
  {
    hide AreNames;
    if OmittedMarker(a) == OmittedMarker(b) {
      hide *;
      MarkerTells(a, b);
    }
  }

  lemma SameEnd(before: string, x: string, y: string)
    requires before + x == before + y
    ensures x == y
  {
    assert (before + x)[|before|..] == x && (before + y)[|before|..] == y;
  }
}
