/**
 The single-flight terminal frame buffer (mcp/stdio/codex-session.js, the same in mcp/stdio/hermes-session.js): frames
 are pushed, the oldest are dropped above a bound, and one drain at a time offers them to the attached sink. A method is
 what runs between two awaits.
 */
module FrameBuffer {
  import opened Common

  const MAX_CHARS: nat := 65536

  datatype Frame = Frame(text: string, status: string)

  function Chars(frames: seq<Frame>): nat {
    if frames == [] then 0 else |frames[0].text| + Chars(frames[1..])
  }

  lemma {:induction false} CharsAppend(frames: seq<Frame>, f: Frame)
    ensures Chars(frames + [f]) == Chars(frames) + |f.text|
  {
    if frames == [] {
      assert [] + [f] == [f] && [f][1..] == [];
    } else {
      assert (frames + [f])[1..] == frames[1..] + [f];
      CharsAppend(frames[1..], f);
    }
  }

  predicate Rising(ids: seq<nat>) {
    forall i, j :: 0 <= i < j < |ids| ==> ids[i] < ids[j]
  }

  /** The frames named by `ids` are the pushed ones with those numbers. */
  ghost predicate Names(ids: seq<nat>, frames: seq<Frame>, pushed: seq<Frame>) {
    |ids| == |frames| && forall i :: 0 <= i < |ids| ==> ids[i] < |pushed| && pushed[ids[i]] == frames[i]
  }

  lemma {:induction false} NamesRest(ids: seq<nat>, frames: seq<Frame>, pushed: seq<Frame>)
    requires Names(ids, frames, pushed) && frames != []
    ensures Names(ids[1..], frames[1..], pushed)
  {
  }

  /** Only whole oldest frames were dropped, and none that the bound did not require. */
  ghost predicate IsTrimmed(before: seq<Frame>, after: seq<Frame>) {
    && |after| <= |before| && after == before[|before|-|after|..]
    && (|after| < |before| ==> Chars(before[|before|-|after|-1..]) > 65536)
  }

  lemma {:induction false} TrimMore(before: seq<Frame>, after: seq<Frame>)
    requires IsTrimmed(before, after) && after != [] && Chars(after) > MAX_CHARS
    ensures IsTrimmed(before, after[1..])
  {
  }

  lemma {:induction false} ShiftKeeps(offered: seq<Frame>, buffer: seq<Frame>)
    requires buffer != []
    ensures (offered + [buffer[0]]) + buffer[1..] == offered + buffer
  {
  }

  class FrameBuffer {
    var buffer: seq<Frame>
    var chars: nat
    var flushing: bool
    var attached: bool
    /** A sink call that has not come back. */
    var calling: bool
    ghost var pushed: seq<Frame>
    ghost var ids: seq<nat>
    ghost var offered: seq<Frame>
    ghost var offeredIds: seq<nat>

    /** The count is right, the bound holds, and frames were offered in push order, each at most once, before those that wait. */
    ghost predicate Sound()
      reads this
    {
      && chars == Chars(buffer) && (chars <= 65536 || |buffer| <= 1)
      && Names(ids, buffer, pushed) && Names(offeredIds, offered, pushed) && Rising(offeredIds + ids)
    }

    /** A drain runs exactly while a sink call is out, and no wake-up is lost: frames never wait for an attached sink without one. */
    ghost predicate Valid()
      reads this
    {
      Sound() && (flushing <==> calling) && (attached && buffer != [] ==> flushing)
    }

    constructor ()
      ensures Valid() && buffer == [] && !attached && pushed == [] && offered == []
    {
      buffer, chars, flushing, attached, calling := [], 0, false, false, false;
      pushed, ids, offered, offeredIds := [], [], [], [];
    }

    /** The oldest waiting frame leaves the buffer. */
    method Shift(offer: bool) returns (frame: Frame)
      requires Sound() && buffer != []
      modifies this`buffer, this`chars, this`ids, this`offered, this`offeredIds
      ensures Sound() && frame == old(buffer)[0] && buffer == old(buffer)[1..] && chars == old(chars) - |frame.text|
      ensures offered == if offer then old(offered) + [frame] else old(offered)
    {
      frame := buffer[0];
      buffer, chars := buffer[1..], chars - |frame.text|;
      if offer {
        offered, offeredIds := offered + [frame], offeredIds + [ids[0]];
        assert (old(offeredIds) + [old(ids)[0]]) + old(ids)[1..] == old(offeredIds) + old(ids);
      } else {
        RisingWithout(offeredIds, ids);
      }
      ids := ids[1..];
    }

    /** The drain, until a sink call is out or there is nothing to do; the first `throws` calls fail at once. */
    method Continue(throws: nat)
      requires Sound() && flushing && !calling
      modifies this`buffer, this`chars, this`flushing, this`calling, this`ids, this`offered, this`offeredIds
      ensures Valid() && old(offered) <= offered && offered + buffer == old(offered) + old(buffer)
      ensures attached && old(buffer) != [] ==> |offered| > |old(offered)| && offered[|old(offered)|] == old(buffer)[0]
      ensures !attached ==> buffer == old(buffer) && offered == old(offered)
      ensures calling ==> |offered| > |old(offered)|
    {
      var left := throws;
      while attached && buffer != []
        invariant Sound() && flushing && !calling && old(offered) <= offered
        invariant if |offered| == |old(offered)| then buffer == old(buffer) && offered == old(offered) else old(buffer) != [] && offered[|old(offered)|] == old(buffer)[0]
        invariant offered + buffer == old(offered) + old(buffer)
        invariant !attached ==> buffer == old(buffer) && offered == old(offered)
        decreases |buffer|
      {
        ShiftKeeps(offered, buffer);
        var frame := Shift(true);
        if left == 0 {
          calling := true;
          return;
        }
        left := left - 1;
      }
      flushing := false;
    }

    /** `_flushTerminalBuffer`. */
    method Flush(throws: nat)
      requires Sound() && (flushing <==> calling)
      modifies this`buffer, this`chars, this`flushing, this`calling, this`ids, this`offered, this`offeredIds
      ensures Valid() && old(offered) <= offered && offered + buffer == old(offered) + old(buffer)
      ensures old(flushing) || !attached || old(buffer) == [] ==> buffer == old(buffer) && offered == old(offered) && flushing == old(flushing)
      ensures !old(flushing) && attached && old(buffer) != [] ==> |offered| > |old(offered)| && offered[|old(offered)|] == old(buffer)[0]
    {
      if !attached || buffer == [] || flushing {
        return;
      }
      flushing := true;
      Continue(throws);
    }

    /** `_pushTerminalFrame`: an empty frame is not pushed; the oldest are dropped while the bound is exceeded and more than one waits. */
    method Push(text: string, status: string, throws: nat)
      requires Valid()
      modifies this
      ensures Valid() && attached == old(attached) && old(offered) <= offered
      ensures text == "" && status == "" ==> pushed == old(pushed) && buffer == old(buffer)
      ensures !(text == "" && status == "") ==> pushed == old(pushed) + [Frame(text, status)]
      ensures !(text == "" && status == "") ==>
        exists kept :: IsTrimmed(old(buffer) + [Frame(text, status)], kept) && offered + buffer == old(offered) + kept
    {
      if text == "" && status == "" {
        return;
      }
      Append(Frame(text, status));
      ghost var kept := buffer;
      Flush(throws);
      assert offered + buffer == old(offered) + kept;
    }

    method Append(f: Frame)
      requires Valid()
      modifies this`buffer, this`chars, this`pushed, this`ids
      ensures Sound() && pushed == old(pushed) + [f] && buffer != [] && IsTrimmed(old(buffer) + [f], buffer)
    {
      CharsAppend(buffer, f);
      RisingMore(offeredIds, ids, |pushed|);
      buffer, chars := buffer + [f], chars + |f.text|;
      pushed, ids := pushed + [f], ids + [|pushed|];
      Trim();
    }

    /** Ends within the bound, or with one frame. */
    method Trim()
      requires chars == Chars(buffer) && Names(ids, buffer, pushed) && Names(offeredIds, offered, pushed) && Rising(offeredIds + ids) && buffer != []
      modifies this`buffer, this`chars, this`ids
      ensures Sound() && buffer != [] && IsTrimmed(old(buffer), buffer)
    {
      while chars > MAX_CHARS && |buffer| > 1
        invariant chars == Chars(buffer) && Names(ids, buffer, pushed) && Rising(offeredIds + ids) && buffer != []
        invariant IsTrimmed(old(buffer), buffer)
        decreases |buffer|
      {
        RisingWithout(offeredIds, ids);
        NamesRest(ids, buffer, pushed);
        TrimMore(old(buffer), buffer);
        var removed := buffer[0];
        buffer, chars, ids := buffer[1..], chars - |removed.text|, ids[1..];
      }
    }

    /** `attachTerminalSink`. */
    method Attach(throws: nat)
      requires Valid()
      modifies this
      ensures Valid() && attached && pushed == old(pushed) && old(offered) <= offered && offered + buffer == old(offered) + old(buffer)
    {
      attached := true;
      Flush(throws);
    }

    method Detach()
      requires Valid()
      modifies this`attached
      ensures Valid() && !attached
    {
      attached := false;
    }

    /** The sink call came back (or failed); the drain goes on with whatever sink is attached now. */
    method SinkReturns(throws: nat)
      requires Valid() && calling
      modifies this
      ensures Valid() && attached == old(attached) && pushed == old(pushed) && old(offered) <= offered
      ensures offered + buffer == old(offered) + old(buffer)
    {
      calling := false;
      Continue(throws);
    }
  }

  lemma {:induction false} RisingWithout(a: seq<nat>, ids: seq<nat>)
    requires Rising(a + ids) && ids != []
    ensures Rising(a + ids[1..])
  {
    var s, t := a + ids, a + ids[1..];
    forall i, j | 0 <= i < j < |t| ensures t[i] < t[j] {
      var p, q := if i < |a| then i else i + 1, if j < |a| then j else j + 1;
      assert s[p] == t[i] && s[q] == t[j];
    }
  }

  lemma {:induction false} RisingMore(a: seq<nat>, ids: seq<nat>, n: nat)
    requires Rising(a + ids) && (forall i :: 0 <= i < |a| ==> a[i] < n) && (forall i :: 0 <= i < |ids| ==> ids[i] < n)
    ensures Rising(a + (ids + [n]))
  {
    Associate(a, ids, [n]);
  }

  /** What rising numbers mean: no frame is offered twice, and none after a later one. */
  lemma {:induction false} OfferedInOrder(b: FrameBuffer, i: nat, j: nat)
    requires b.Valid() && i < j < |b.offered|
    ensures b.offeredIds[i] < b.offeredIds[j] < |b.pushed|
    ensures b.offered[i] == b.pushed[b.offeredIds[i]] && b.offered[j] == b.pushed[b.offeredIds[j]]
  {
    var all := b.offeredIds + b.ids;
    assert all[i] == b.offeredIds[i] && all[j] == b.offeredIds[j];
  }
}
