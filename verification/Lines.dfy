/** Lines of a text, and texts that occur in one another. */
module Lines {

  function Split(s: string): (r: seq<string>)
    ensures |r| >= 1
  {
    if s == "" then [""]
    else
      var rest := Split(s[1..]);
      if s[0] == '\n' then [""] + rest else [[s[0]] + rest[0]] + rest[1..]
  }

  function Join(lines: seq<string>): string {
    if lines == [] then ""
    else if |lines| == 1 then lines[0]
    else lines[0] + ['\n'] + Join(lines[1..])
  }

  predicate OneLine(s: string) {
    forall i :: 0 <= i < |s| ==> s[i] != '\n'
  }

  lemma {:induction false} SplitOneLine(s: string)
    requires OneLine(s)
    ensures Split(s) == [s]
  {
    if s != "" {
      SplitOneLine(s[1..]);
      assert s == [s[0]] + s[1..];
    }
  }

  lemma {:induction false} SplitAt(a: string, r: string)
    ensures Split(a + ['\n'] + r) == Split(a) + Split(r)
  {
    var whole := a + ['\n'] + r;
    if a == "" {
      assert whole[1..] == r;
    } else {
      assert whole[1..] == a[1..] + ['\n'] + r;
      SplitAt(a[1..], r);
    }
  }

  lemma {:induction false} JoinSplit(s: string)
    ensures Join(Split(s)) == s
  {
    if s != "" {
      JoinSplit(s[1..]);
      var rest := Split(s[1..]);
      if s[0] != '\n' {
        assert Split(s)[1..] == rest[1..];
        assert Join(Split(s)) == [s[0]] + Join(rest);
      } else {
        assert Split(s)[1..] == rest;
      }
    }
  }

  /** Position i of text holds a copy of part. */
  predicate OccursAt(part: string, text: string, i: nat) {
    i + |part| <= |text| && text[i..i + |part|] == part
  }

  predicate Occurs(part: string, text: string) {
    exists i :: 0 <= i <= |text| && OccursAt(part, text, i)
  }

  /** A part of a part is a part of the whole. */
  lemma OccursInside(part: string, text: string, before: string, after: string)
    requires Occurs(part, text)
    ensures Occurs(part, before + text + after)
  {
    var i :| 0 <= i <= |text| && OccursAt(part, text, i);
    var whole := before + text + after;
    assert whole[|before| + i..|before| + i + |part|] == part;
    assert OccursAt(part, whole, |before| + i);
  }

  lemma {:induction false} OccursInLine(part: string, s: string, k: nat)
    requires k < |Split(s)| && Occurs(part, Split(s)[k])
    ensures Occurs(part, s)
  {
    if s != "" {
      var rest := Split(s[1..]);
      assert s == [s[0]] + s[1..] + "";
      if s[0] == '\n' {
        if k > 0 {
          OccursInLine(part, s[1..], k - 1);
          OccursInside(part, s[1..], [s[0]], "");
        } else {
          assert OccursAt(part, s, 0);
        }
      } else if k > 0 {
        OccursInLine(part, s[1..], k);
        OccursInside(part, s[1..], [s[0]], "");
      } else {
        FirstLineIsPrefix(s);
        OccursInside(part, Split(s)[0], "", s[|Split(s)[0]|..]);
        assert s == "" + Split(s)[0] + s[|Split(s)[0]|..];
      }
    }
  }

  lemma {:induction false} FirstLineIsPrefix(s: string)
    ensures Split(s)[0] <= s
  {
    if s != "" {
      FirstLineIsPrefix(s[1..]);
    }
  }
}
