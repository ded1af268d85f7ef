/** Joining consecutive cues of one speaker. */
module VttMerge {
  import opened Bounds
  import opened Text
  import opened Vtt

  const MAX_MERGE_GAP: int := 2000

  predicate CanMerge(last: Segment, s: Segment) {
    last.speaker == s.speaker && s.start - last.end <= MAX_MERGE_GAP
  }

  function Absorb(a: Segment, s: Segment): Segment {
    a.(end := Max(a.end, s.end), text := a.text + " " + s.text)
  }

  /** The plain way to merge: grow the current cue while the next one fits. */
  function MergeFrom(current: Segment, rest: seq<Segment>): seq<Segment>
    decreases |rest|
  {
    if rest == [] then [current]
    else if CanMerge(current, rest[0]) then MergeFrom(Absorb(current, rest[0]), rest[1..])
    else [current] + MergeFrom(rest[0], rest[1..])
  }

  function Merge(segs: seq<Segment>): seq<Segment> {
    if segs == [] then [] else MergeFrom(segs[0], segs[1..])
  }

  // ----- the program's loop

  /** A cue whose text is still kept in pieces. */
  function Joined(s: Segment, parts: seq<string>): Segment {
    s.(text := Join(parts, " "))
  }

  function JoinedAll(out: seq<Segment>, parts: seq<seq<string>>): seq<Segment>
    requires |out| == |parts|
  {
    seq(|out|, i requires 0 <= i < |out| => Joined(out[i], parts[i]))
  }

  lemma JoinMore(parts: seq<string>, t: string)
    requires parts != []
    ensures Join(parts + [t], " ") == Join(parts, " ") + " " + t
  {
    JoinSplit(parts, [t], " ");
  }

  /** What the loop still has to produce, from what it has so far. */
  function Continued(out: seq<Segment>, parts: seq<seq<string>>, rest: seq<Segment>): seq<Segment>
    requires |out| == |parts|
  {
    if out == [] then Merge(rest)
    else
      var n := |out| - 1;
      JoinedAll(out[..n], parts[..n]) + MergeFrom(Joined(out[n], parts[n]), rest)
  }

  lemma ContinueGrown(out: seq<Segment>, parts: seq<seq<string>>, s: Segment, rest: seq<Segment>)
    requires |out| == |parts| && out != [] && parts[|out| - 1] != [] && CanMerge(out[|out| - 1], s)
    ensures var n := |out| - 1;
      Continued(out[n := out[n].(end := Max(out[n].end, s.end))], parts[n := parts[n] + [s.text]], rest) ==
      Continued(out, parts, [s] + rest)
  {
    var n := |out| - 1;
    JoinMore(parts[n], s.text);
    var out', parts' := out[n := out[n].(end := Max(out[n].end, s.end))], parts[n := parts[n] + [s.text]];
    assert out'[..n] == out[..n] && parts'[..n] == parts[..n];
    assert Joined(out'[n], parts'[n]) == Absorb(Joined(out[n], parts[n]), s);
    assert ([s] + rest)[1..] == rest;
  }

  lemma ContinueNew(out: seq<Segment>, parts: seq<seq<string>>, s: Segment, rest: seq<Segment>)
    requires |out| == |parts| && (out != [] ==> !CanMerge(out[|out| - 1], s))
    ensures Continued(out + [s], parts + [[s.text]], rest) == Continued(out, parts, [s] + rest)
  {
    var n := |out|;
    assert (out + [s])[..n] == out && (parts + [[s.text]])[..n] == parts;
    assert Joined(s, [s.text]) == s;
    assert ([s] + rest)[1..] == rest;
    if out != [] {
      assert JoinedAll(out, parts) == JoinedAll(out[..n - 1], parts[..n - 1]) + [Joined(out[n - 1], parts[n - 1])];
    }
  }

  method MergeSegments(segs: seq<Segment>) returns (out: seq<Segment>)
    ensures out == Merge(segs)
  {
    hide Continued, JoinedAll, Merge;
    out := [];
    var parts: seq<seq<string>> := [];
    assert Continued(out, parts, segs[0..]) == Merge(segs) by { Begin(segs); }
    for i := 0 to |segs|
      invariant |out| == |parts| && forall k :: 0 <= k < |parts| ==> parts[k] != []
      invariant Continued(out, parts, segs[i..]) == Merge(segs)
    {
      var s := segs[i];
      assert segs[i..] == [s] + segs[i + 1..];
      var n := |out|;
      if n > 0 && out[n - 1].speaker == s.speaker && s.start - out[n - 1].end <= MAX_MERGE_GAP {
        ContinueGrown(out, parts, s, segs[i + 1..]);
        if s.end > out[n - 1].end {
          out := out[n - 1 := out[n - 1].(end := s.end)];
        } else {
          assert out == out[n - 1 := out[n - 1].(end := out[n - 1].end)];
        }
        parts := parts[n - 1 := parts[n - 1] + [s.text]];
        continue;
      }
      ContinueNew(out, parts, s, segs[i + 1..]);
      out := out + [s];
      parts := parts + [[s.text]];
    }
    assert JoinedAll(out, parts) == Merge(segs) by {
      assert segs[|segs|..] == [];
      Finish(out, parts);
    }
    ghost var grouped := out;
    for i := 0 to |out|
      invariant |out| == |grouped| == |parts|
      invariant forall k :: 0 <= k < i ==> out[k] == Joined(grouped[k], parts[k])
      invariant forall k :: i <= k < |out| ==> out[k] == grouped[k]
    {
      out := out[i := out[i].(text := Join(parts[i], " "))];
    }
    AllJoined(out, grouped, parts);
  }

  lemma Begin(segs: seq<Segment>)
    ensures Continued([], [], segs[0..]) == Merge(segs)
  {
    assert segs[0..] == segs;
  }

  lemma Finish(out: seq<Segment>, parts: seq<seq<string>>)
    requires |out| == |parts|
    ensures Continued(out, parts, []) == JoinedAll(out, parts)
  {
  }

  lemma AllJoined(out: seq<Segment>, grouped: seq<Segment>, parts: seq<seq<string>>)
    requires |out| == |grouped| == |parts|
    requires forall k :: 0 <= k < |out| ==> out[k] == Joined(grouped[k], parts[k])
    ensures out == JoinedAll(grouped, parts)
  {
  }

  // ----- what merging gives

  /** Neighbours differ in speaker or are more than two seconds apart. */
  ghost predicate Settled(segs: seq<Segment>) {
    forall i :: 0 <= i < |segs| - 1 ==>
      segs[i].speaker != segs[i + 1].speaker || segs[i + 1].start - segs[i].end > 2000
  }

  lemma {:induction false} MergeFromFirst(current: Segment, rest: seq<Segment>)
    ensures var out := MergeFrom(current, rest);
      out != [] && out[0].speaker == current.speaker && out[0].start == current.start && out[0].end >= current.end
    decreases |rest|
  {
    if rest != [] && CanMerge(current, rest[0]) {
      MergeFromFirst(Absorb(current, rest[0]), rest[1..]);
    }
  }

  lemma {:induction false} MergeFromSettles(current: Segment, rest: seq<Segment>)
    ensures Settled(MergeFrom(current, rest))
    decreases |rest|
  {
    if rest != [] {
      if CanMerge(current, rest[0]) {
        MergeFromSettles(Absorb(current, rest[0]), rest[1..]);
      } else {
        MergeFromSettles(rest[0], rest[1..]);
        MergeFromFirst(rest[0], rest[1..]);
        var tail := MergeFrom(rest[0], rest[1..]);
        var out := [current] + tail;
        forall i | 0 <= i < |out| - 1 ensures !CanMerge(out[i], out[i + 1]) {
          if i > 0 {
            assert out[i] == tail[i - 1] && out[i + 1] == tail[i];
          }
        }
      }
    }
  }

  lemma {:induction false} SettledStays(current: Segment, rest: seq<Segment>)
    requires Settled([current] + rest)
    ensures MergeFrom(current, rest) == [current] + rest
    decreases |rest|
  {
    if rest != [] {
      var all := [current] + rest;
      assert !CanMerge(all[0], all[1]);
      assert Settled(rest) by {
        forall i | 0 <= i < |rest| - 1 ensures !CanMerge(rest[i], rest[i + 1]) {
          assert rest[i] == all[i + 1] && rest[i + 1] == all[i + 2];
        }
      }
      assert [rest[0]] + rest[1..] == rest;
      SettledStays(rest[0], rest[1..]);
    }
  }

  /** No two neighbours can be merged any further, and merging again changes nothing; a list
      is left as it is exactly when no two neighbours can be merged. */
  lemma MergeIdempotent(segs: seq<Segment>)
    ensures Settled(Merge(segs)) && Merge(Merge(segs)) == Merge(segs)
    ensures Merge(segs) == segs <==> Settled(segs)
  {
    if segs != [] {
      MergeFromSettles(segs[0], segs[1..]);
      var out := Merge(segs);
      MergeFromFirst(segs[0], segs[1..]);
      assert [out[0]] + out[1..] == out;
      SettledStays(out[0], out[1..]);
      if Settled(segs) {
        assert [segs[0]] + segs[1..] == segs;
        SettledStays(segs[0], segs[1..]);
      }
    }
  }

  // ----- the groups behind the merged cues

  function Texts(segs: seq<Segment>): seq<string> {
    seq(|segs|, i requires 0 <= i < |segs| => segs[i].text)
  }

  function LatestEnd(g: seq<Segment>): int
    requires g != []
  {
    if |g| == 1 then g[0].end else Max(LatestEnd(g[..|g| - 1]), g[|g| - 1].end)
  }

  function Summary(g: seq<Segment>): Segment
    requires g != []
  {
    Segment(g[0].start, LatestEnd(g), Join(Texts(g), " "), g[0].speaker)
  }

  function GroupsFrom(g: seq<Segment>, rest: seq<Segment>): (gs: seq<seq<Segment>>)
    requires g != []
    ensures forall h :: h in gs ==> h != []
    decreases |rest|
  {
    if rest == [] then [g]
    else if CanMerge(Summary(g), rest[0]) then GroupsFrom(g + [rest[0]], rest[1..])
    else [g] + GroupsFrom([rest[0]], rest[1..])
  }

  function Groups(segs: seq<Segment>): (gs: seq<seq<Segment>>)
    ensures forall h :: h in gs ==> h != []
  {
    if segs == [] then [] else GroupsFrom([segs[0]], segs[1..])
  }

  function Flatten(gs: seq<seq<Segment>>): seq<Segment> {
    if gs == [] then [] else gs[0] + Flatten(gs[1..])
  }

  function Summaries(gs: seq<seq<Segment>>): seq<Segment>
    requires forall h :: h in gs ==> h != []
  {
    if gs == [] then []
    else
      assert gs[0] in gs && forall h :: h in gs[1..] ==> h in gs;
      [Summary(gs[0])] + Summaries(gs[1..])
  }

  ghost predicate OneSpeaker(g: seq<Segment>) {
    forall i, j :: 0 <= i < |g| && 0 <= j < |g| ==> g[i].speaker == g[j].speaker
  }

  /** Each cue begins at most two seconds after everything before it in the group has ended. */
  ghost predicate Close(g: seq<Segment>) {
    forall i :: 0 < i < |g| ==> g[i].start - LatestEnd(g[..i]) <= 2000
  }

  lemma SummaryOfOne(s: Segment)
    ensures Summary([s]) == s
  {
    assert Texts([s]) == [s.text];
  }

  lemma SummaryGrows(g: seq<Segment>, s: Segment)
    requires g != []
    ensures Summary(g + [s]) == Absorb(Summary(g), s)
  {
    var h := g + [s];
    assert h[..|h| - 1] == g;
    assert Texts(h) == Texts(g) + [s.text];
    JoinMore(Texts(g), s.text);
  }

  lemma SpeakerStays(g: seq<Segment>, s: Segment)
    requires g != [] && OneSpeaker(g) && Close(g) && CanMerge(Summary(g), s)
    ensures OneSpeaker(g + [s]) && Close(g + [s])
  {
    var h := g + [s];
    forall i | 0 < i < |h|
      ensures h[i].start - LatestEnd(h[..i]) <= 2000
    {
      assert h[..i] == g[..i];
      assert i == |g| ==> g[..i] == g;
    }
  }

  lemma {:induction false} GroupsMerge(g: seq<Segment>, rest: seq<Segment>)
    requires g != [] && OneSpeaker(g) && Close(g)
    ensures MergeFrom(Summary(g), rest) == Summaries(GroupsFrom(g, rest))
    ensures Flatten(GroupsFrom(g, rest)) == g + rest
    ensures forall h :: h in GroupsFrom(g, rest) ==> OneSpeaker(h) && Close(h)
    decreases |rest|
  {
    hide Summary;
    if rest == [] {
      assert [g][1..] == [] && Flatten([g]) == g + [];
      assert Summaries([g]) == [Summary(g)] + [];
    } else if CanMerge(Summary(g), rest[0]) {
      SummaryGrows(g, rest[0]);
      SpeakerStays(g, rest[0]);
      GroupsMerge(g + [rest[0]], rest[1..]);
      assert g + [rest[0]] + rest[1..] == g + rest;
    } else {
      var tail := GroupsFrom([rest[0]], rest[1..]);
      SummaryOfOne(rest[0]);
      GroupsMerge([rest[0]], rest[1..]);
      assert ([g] + tail)[1..] == tail;
      assert [rest[0]] + rest[1..] == rest;
    }
  }

  lemma {:induction false} LatestEndIsMaximum(g: seq<Segment>)
    requires g != []
    ensures forall s :: s in g ==> s.end <= LatestEnd(g)
    ensures exists s :: s in g && s.end == LatestEnd(g)
    decreases |g|
  {
    var front, last := g[..|g| - 1], g[|g| - 1];
    assert last in g;
    if |g| > 1 {
      LatestEndIsMaximum(front);
      var s :| s in front && s.end == LatestEnd(front);
      assert s in g;
      forall t | t in g ensures t.end <= LatestEnd(g) { assert t in front || t == last; }
    }
  }

  /** The merged cues stand for consecutive groups that make up the whole input in order, each
      of one speaker and without gaps over two seconds: from the group's first start to its latest
      end, its texts joined. */
  lemma MergeGroups(segs: seq<Segment>)
    ensures Flatten(Groups(segs)) == segs
    ensures Merge(segs) == Summaries(Groups(segs))
    ensures forall g :: g in Groups(segs) ==> OneSpeaker(g) && Close(g)
    ensures forall g :: g in Groups(segs) ==>
      (forall s :: s in g ==> s.end <= Summary(g).end) && exists s :: s in g && s.end == Summary(g).end
  {
    if segs != [] {
      SummaryOfOne(segs[0]);
      GroupsMerge([segs[0]], segs[1..]);
      assert [segs[0]] + segs[1..] == segs;
    }
    forall g | g in Groups(segs)
      ensures (forall s :: s in g ==> s.end <= Summary(g).end) && exists s :: s in g && s.end == Summary(g).end
    {
      LatestEndIsMaximum(g);
    }
  }

  lemma JoinFirstTwo(a: string, b: string, later: seq<string>)
    ensures Join([a + " " + b] + later, " ") == Join([a, b] + later, " ")
  {
    JoinMore([a], b);
    assert [a] + [b] == [a, b];
    if later == [] {
      assert [a, b] + later == [a, b] && [a + " " + b] + later == [a + " " + b];
    } else {
      JoinSplit([a + " " + b], later, " ");
      JoinSplit([a, b], later, " ");
    }
  }

  lemma TextsCons(s: Segment, later: seq<Segment>)
    ensures Texts([s] + later) == [s.text] + Texts(later)
  {
  }

  /** The same first text before texts that join alike. */
  lemma JoinAlike(first: string, a: seq<string>, b: seq<string>)
    requires a != [] && b != [] && Join(a, " ") == Join(b, " ")
    ensures Join([first] + a, " ") == Join([first] + b, " ")
  {
    hide Join;
    JoinSplit([first], a, " ");
    JoinSplit([first], b, " ");
  }

  lemma {:induction false} JoinedTextKept(current: Segment, rest: seq<Segment>)
    ensures Join(Texts(MergeFrom(current, rest)), " ") == Join(Texts([current] + rest), " ")
    decreases |rest|
  {
    hide Join, Texts;
    if rest == [] {
      assert [current] + rest == [current];
    } else {
      assert rest == [rest[0]] + rest[1..];
      var later := Texts(rest[1..]);
      TextsCons(rest[0], rest[1..]);
      TextsCons(current, rest);
      if CanMerge(current, rest[0]) {
        var grown := Absorb(current, rest[0]);
        JoinedTextKept(grown, rest[1..]);
        TextsCons(grown, rest[1..]);
        assert [current.text] + ([rest[0].text] + later) == [current.text, rest[0].text] + later;
        JoinFirstTwo(current.text, rest[0].text, later);
      } else {
        var tail := MergeFrom(rest[0], rest[1..]);
        JoinedTextKept(rest[0], rest[1..]);
        MergeFromFirst(rest[0], rest[1..]);
        TextsCons(current, tail);
        TextsCons(tail[0], tail[1..]);
        assert tail == [tail[0]] + tail[1..];
        JoinAlike(current.text, Texts(tail), Texts(rest));
      }
    }
  }

  /** Not a word is lost, added or moved. */
  lemma MergeKeepsText(segs: seq<Segment>)
    ensures Join(Texts(Merge(segs)), " ") == Join(Texts(segs), " ")
  {
    if segs != [] {
      JoinedTextKept(segs[0], segs[1..]);
      assert [segs[0]] + segs[1..] == segs;
    }
  }
}
