/**
 The number a stored batch goes out under. A batch that claimed none, a status or a drop note left over by a hand-back, is
 stored and sent under the number already in the row. And the numbers of the frames sent: where they skip one.
 */
module WriteQueueFrames {
  import opened Common
  import opened WriteQueue
  import opened WriteQueueOrder
  import opened WriteQueueNumbers
  import opened WriteQueueLimits

  // ---------------------------------------------------------------------------------------------
  // The number of a frame

  /** The number the last of these batches was sent under, in a row that held `start`: its own, or that of the one before it. */
  function Tag(log: seq<Batch>, start: nat): nat {
    if log == [] then start
    else if log[|log|-1].number != 0 then log[|log|-1].number
    else Tag(log[..|log|-1], start)
  }

  function TagAt(log: seq<Batch>, start: nat, k: nat): nat
    requires k < |log|
  {
    Tag(log[..k+1], start)
  }

  /** Any two stored batches sent under one number have the same text. */
  ghost predicate OnePayloadPerTag(log: seq<Batch>, start: nat) {
    forall i, j :: 0 <= i < j < |log| && TagAt(log, start, i) == TagAt(log, start, j) ==> Text(log[i]) == Text(log[j])
  }

  /** A stored batch without a number repeats the text of the one before it. */
  ghost predicate OnlyRepeats(log: seq<Batch>) {
    forall k :: 0 < k < |log| && log[k].number == 0 ==> Text(log[k]) == Text(log[k-1])
  }

  lemma {:induction false} TagNext(log: seq<Batch>, start: nat, k: nat)
    requires k < |log|
    ensures TagAt(log, start, k) == if log[k].number != 0 then log[k].number else if k == 0 then start else TagAt(log, start, k - 1)
  {
    var upTo := log[..k+1];
    assert upTo[|upTo|-1] == log[k];
    if k == 0 {
      assert Tag(upTo[..|upTo|-1], start) == start;
    } else {
      assert upTo[..|upTo|-1] == log[..k-1+1];
    }
  }

  /** What the tag of a stored batch says of its text, as long as batches without a number only repeat. */
  ghost predicate TagSays(published: map<nat, string>, log: seq<Batch>, start: nat, k: nat)
    requires k < |log|
  {
    var tag := TagAt(log, start, k);
    if tag == start then Text(log[k]) == Text(log[0]) else tag in published && published[tag] == Text(log[k])
  }

  lemma {:induction false} TagIsPublished(published: map<nat, string>, log: seq<Batch>, start: nat, k: nat)
    requires Named(published, log) && start !in published && OnlyRepeats(log) && k < |log|
    ensures TagSays(published, log, start, k)
  {
    TagNext(log, start, k);
    if log[k].number != 0 {
      assert log[k] in log;
    } else if k > 0 {
      TagIsPublished(published, log, start, k - 1);
    }
  }

  /** Among the stored batches a number names one text exactly when every batch that has none repeats the one before it. */
  lemma {:induction false} TagsNameOnePayloadIff(published: map<nat, string>, log: seq<Batch>, start: nat)
    requires Named(published, log) && start !in published
    ensures OnePayloadPerTag(log, start) <==> OnlyRepeats(log)
  {
    if OnePayloadPerTag(log, start) {
      forall k | 0 < k < |log| && log[k].number == 0 ensures Text(log[k]) == Text(log[k-1]) {
        TagNext(log, start, k);
        assert TagAt(log, start, k - 1) == TagAt(log, start, k);
      }
    }
    if OnlyRepeats(log) {
      forall i, j | 0 <= i < j < |log| && TagAt(log, start, i) == TagAt(log, start, j) ensures Text(log[i]) == Text(log[j]) {
        TagIsPublished(published, log, start, i);
        TagIsPublished(published, log, start, j);
      }
    }
  }

  /** The row's number is the tag of its last batch, and every number claimed lies above the one the row began with. */
  ghost predicate Tagged(t: Terminal, start: nat) {
    t.number == Tag(t.log, start)
  }

  ghost predicate Above(t: Terminal, start: nat) {
    && t.floor > start && (forall n :: n in t.published ==> n > start)
    && (State(t).lastSeq != 0 ==> State(t).lastSeq > start)
  }

  lemma {:induction false} StepTagged(t: Terminal, op: Op, limit: nat, start: nat)
    requires Counted(t) && Tagged(t, start)
    ensures Tagged(Step(t, op, limit), start)
  {
    if op.WriteOk? && t.drains != [] && t.drains[0] != [] && !Void(t.drains[0][0]) {
      var b := t.drains[0][0];
      assert (t.log + [b])[..|t.log|] == t.log;
    }
  }

  lemma {:induction false} RunTagged(t: Terminal, ops: seq<Op>, limit: nat, start: nat)
    requires Counted(t) && Tagged(t, start)
    ensures Tagged(Run(t, ops, limit), start)
    decreases |ops|
  {
    if ops != [] {
      StepCounted(t, ops[0], limit);
      StepTagged(t, ops[0], limit, start);
      RunTagged(Step(t, ops[0], limit), ops[1..], limit, start);
    }
  }

  lemma {:induction false} RunAbove(t: Terminal, ops: seq<Op>, limit: nat, start: nat)
    requires Counted(t) && Above(t, start)
    ensures Above(Run(t, ops, limit), start)
    decreases |ops|
  {
    if ops != [] {
      StepCounted(t, ops[0], limit);
      StepAbove(t, ops[0], limit, start);
      RunAbove(Step(t, ops[0], limit), ops[1..], limit, start);
    }
  }

  lemma {:induction false} StepAbove(t: Terminal, op: Op, limit: nat, start: nat)
    requires Counted(t) && Above(t, start)
    ensures Above(Step(t, op, limit), start)
  {
  }

  lemma {:induction false} StartIsNotPublished(start: nat, ops: seq<Op>, limit: nat)
    requires start == 0 || FirstBaseCovers(ops, start)
    ensures start !in Run(Fresh(start), ops, limit).published
    decreases |ops|
  {
    var t := Fresh(start);
    if start == 0 {
      NumberNamesOnePayload(t, ops, limit);
    } else if ops != [] {
      var op := ops[0];
      if op.Post? && Accepts(op.text, op.status) {
        StepCounted(t, op, limit);
        RunAbove(Step(t, op, limit), ops[1..], limit, start);
      } else {
        StartIsNotPublished(start, ops[1..], limit);
      }
    }
  }

  /**
   Over every run from a row that holds `start`: the row's number is the one its last batch was sent under, and a number
   names one text among all batches ever stored if and only if every one stored without a number repeats the text before it.
   */
  lemma {:induction false} FramesNameOnePayloadIff(start: nat, ops: seq<Op>, limit: nat)
    requires start == 0 || FirstBaseCovers(ops, start)
    ensures var t := Run(Fresh(start), ops, limit);
      && t.number == Tag(t.log, start)
      && (OnePayloadPerTag(t.log, start) <==> OnlyRepeats(t.log))
  {
    var t := Run(Fresh(start), ops, limit);
    NumberNamesOnePayload(Fresh(start), ops, limit);
    StartIsNotPublished(start, ops, limit);
    RunTagged(Fresh(start), ops, limit, start);
    TagsNameOnePayloadIff(t.published, t.log, start);
  }

  // ---------------------------------------------------------------------------------------------
  // A frame under a number already used

  lemma {:induction false} HandedBackWithStatus(t: Terminal, b: Batch)
    requires t.pending.None? && t.drains == [[b]] && Text(b) != "" && b.status != ""
    ensures var u, c := Flushed(Failed(t)), b.(status := "");
      u.drains == [[c, Mark(b.status, 0)]] && u.log == t.log && u.number == t.number && u.published == t.published && u.pending.None?
  {
    assert [b][1..] == [];
    assert Keep([b]) == [b.(status := "")] + [];
    assert LastStatus([b]) == b.status by { assert LastStatus([b][1..]) == ""; }
    assert [b.(status := "")] + [] == [b.(status := "")];
    var u := Failed(t);
    assert u.drains == [] && u.pending == Some(Pending([b.(status := "")], [], 0, b.status, 0, 0));
    assert [b.(status := "")] + [Open(u.pending.value)] == [b.(status := ""), Mark(b.status, 0)];
  }

  lemma {:induction false} BothWritten(t: Terminal, a: Batch, b: Batch)
    requires t.drains == [[a, b]] && !Void(a) && !Void(b) && a.number != 0 && b.number == 0
    ensures var u := Written(Written(t)); u.log == t.log + [a, b] && u.number == a.number && u.published == t.published
  {
    var u := Written(t);
    assert [a, b][1..] == [b];
    assert u.drains == [[b]] && u.log == t.log + [a];
    assert (t.log + [a]) + [b] == t.log + [a, b];
  }

  /**
   Text posted with a status, one failed write, and both stored at the second try: the text goes out under 1, and then the
   status alone, an empty text, under 1 as well.
   */
  lemma {:induction false} StatusRepeatsNumber(x: string, status: string, limit: nat)
    requires x != "" && status != "" && |x| <= limit
    ensures var t := Written(Written(Flushed(Failed(Flushed(Posted(Fresh(0), x, status, 0, limit))))));
      && t.log == [One(0, x, 1), Mark(status, 0)] && t.number == 1 && t.published == map[1 := x]
      && TagAt(t.log, 0, 0) == TagAt(t.log, 0, 1) == 1 && Text(t.log[0]) == x && Text(t.log[1]) == ""
  {
    var c := Chunk(0, x);
    var b := Batch("", 0, [c], status, 1);
    var u := Posted(Fresh(0), x, status, 0, limit);
    assert [] + [c] == [c] && [c][1..] == [] && Concat([c]) == x;
    assert u.pending == Some(Pending([], [c], |x|, status, 0, 1));
    assert [] + [b] == [b] && Open(u.pending.value) == b && Text(b) == x;
    var v := Flushed(u);
    assert v.drains == [[b]] && v.published == map[1 := x];
    HandedBackWithStatus(v, b);
    var w := Flushed(Failed(v));
    BothWritten(w, One(0, x, 1), Mark(status, 0));
    var t := Written(Written(w));
    assert [] + [One(0, x, 1), Mark(status, 0)] == [One(0, x, 1), Mark(status, 0)];
    TagNext(t.log, 0, 0);
    TagNext(t.log, 0, 1);
  }

  /** A status flushed behind a failing text: no chunk is overtaken, and still the row's number falls from 2 to 1. */
  lemma {:induction false} StatusOvertakes(x: string, status: string, limit: nat)
    requires x != "" && status != "" && |x| <= limit
    ensures var t := Flushed(Posted(Flushed(Posted(Fresh(0), x, "", 0, limit)), "", status, 0, limit));
      var u := Written(Failed(t));
      && StepInOrder(t, WriteFails) && !StepRises(t, WriteFails)
      && u.number == 2 && Written(Flushed(Written(u))).number == 1
  {
    PostThenFlush(Fresh(0), x, limit);
    var t1 := Flushed(Posted(Fresh(0), x, "", 0, limit));
    MarkThenFlush(t1, status, limit);
    var t := Flushed(Posted(t1, "", status, 0, limit));
    var a, b := One(0, x, 1), Mark(status, 2);
    assert t.drains == [[a], [b]];
    assert Text(a) == x by { assert a.chunks[1..] == []; }
    OnlyStatusBehind(t, a, b);
    StatusFirst(t, a, b);
    RetriedLast(Written(Failed(t)), a, b);
  }

  lemma {:induction false} OnlyStatusBehind(t: Terminal, a: Batch, b: Batch)
    requires t.pending.None? && t.drains == [[a], [b]] && a.status == "" && Text(a) != "" && b.chunks == [] && a.number != 0 && b.number != 0
    ensures StepInOrder(t, WriteFails) && !StepRises(t, WriteFails)
  {
    assert t.drains[1..] == [[b]];
    FlatDrainsOne([b]);
    FlatOne(b);
    assert Join([[b]]) == [b] + [] by { assert [[b]][1..] == []; }
    assert Keep([a]) == [a] + [] by { assert [a][1..] == []; }
    assert KeptBatches(t) == [a];
    assert a in KeptBatches(t) && b in Join(t.drains[1..]);
  }

  lemma {:induction false} StatusFirst(t: Terminal, a: Batch, b: Batch)
    requires t.pending.None? && t.drains == [[a], [b]] && t.log == [] && a.status == "" && Text(a) != "" && b.status != "" && b.number != 0
    ensures var u := Written(Failed(t));
      u.log == [b] && u.drains == [[]] && u.pending == Some(Pending([a], [], 0, "", 0, 0)) && u.number == b.number
  {
    assert [a][1..] == [] && Keep([a]) == [a] && LastStatus([a]) == "";
    assert [a] + [] == [a] && [b][1..] == [];
    assert Failed(t).drains == [[b]];
    assert Written(Failed(t)).drains == [[]];
  }
}
