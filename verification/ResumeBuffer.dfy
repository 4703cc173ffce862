/**
 A session's downlink text: sequence numbers from one, a buffer of the newest 512
 bufferable messages, and the replay that follows a reconnect.
 */
module ResumeBuffer {
  import opened Bounded

  const RESUME_BUFFER_LEN := 512

  datatype Message = Message(seqNo: nat, text: string)

  /** A call to send; `keep` is false for messages that must never be replayed. */
  datatype Call = Call(text: string, keep: bool)

  /** Every bufferable message a history of calls produced, with its number. */
  function Kept(calls: seq<Call>): seq<Message>
    decreases |calls|
  {
    if calls == [] then []
    else
      var n := |calls| - 1;
      Kept(calls[..n]) + if calls[n].keep then [Message(n + 1, calls[n].text)] else []
  }

  predicate Rising(ms: seq<Message>) {
    forall i, j :: 0 <= i < j < |ms| ==> ms[i].seqNo < ms[j].seqNo
  }

  /** Messages the client has not seen. */
  function Later(ms: seq<Message>, last: int): seq<Message>
    decreases |ms|
  {
    if ms == [] then []
    else
      var n := |ms| - 1;
      Later(ms[..n], last) + if ms[n].seqNo > last then [ms[n]] else []
  }

  class Outbox {
    var seqNo: nat
    var buffer: seq<Message>
    var live: bool
    /** The calls made so far. */
    ghost var calls: seq<Call>

    ghost predicate Valid()
      reads this
    {
      && seqNo == |calls|
      && buffer == Newest(Kept(calls), 512)
    }

    constructor ()
      ensures Valid() && calls == [] && !live
    {
      seqNo, buffer, live, calls := 0, [], false, [];
    }

    method Attach()
      requires Valid()
      modifies this`live
      ensures Valid() && live
    {
      live := true;
    }

    method Detach()
      requires Valid()
      modifies this`live
      ensures Valid() && !live
    {
      live := false;
    }

    /** The message is numbered and buffered before anything is transmitted, socket or none. */
    method Send(text: string, keep: bool) returns (n: nat, wire: seq<Message>)
      requires Valid()
      modifies this
      ensures Valid() && calls == old(calls) + [Call(text, keep)]
      ensures n == |calls| && live == old(live)
      ensures wire == if live then [Message(n, text)] else []
    {
      hide Newest;
      seqNo := seqNo + 1;
      var m := Message(seqNo, text);
      calls := calls + [Call(text, keep)];
      assert calls[..|calls| - 1] == old(calls);
      if keep {
        NewestAppend(Kept(old(calls)), [m], RESUME_BUFFER_LEN);
        buffer := Newest(buffer + [m], RESUME_BUFFER_LEN);
      } else {
        assert Kept(calls) == Kept(old(calls));
      }
      n := seqNo;
      wire := if live then [m] else [];
    }

    /**
     Resend what the client missed. `fails` is how many transmissions succeed before the
     socket dies; a replay that meets its death has sent a prefix and raised.
     */
    method ReplayAfter(last: int, fails: nat) returns (wire: seq<Message>, raised: bool, n: nat)
      requires Valid()
      ensures !live ==> wire == [] && !raised && n == 0
      ensures live ==> var missed := Later(buffer, last);
                       && (raised <==> |missed| > fails)
                       && wire == (if raised then missed[..fails] else missed)
                       && n == |wire|
    {
      wire, raised, n := [], false, 0;
      if !live {
        return;
      }
      var snapshot := buffer;
      for i := 0 to |snapshot|
        invariant wire == Later(snapshot[..i], last) && n == |wire| <= fails && !raised
      {
        assert snapshot[..i + 1][..i] == snapshot[..i];
        if snapshot[i].seqNo > last {
          if n == fails {
            LaterPrefix(snapshot, i + 1, last);
            return wire, true, n;
          }
          wire := wire + [snapshot[i]];
          n := n + 1;
        }
      }
      assert snapshot[..|snapshot|] == snapshot;
    }
  }

  // ---------------------------------------------------------------------------
  // What a replay can promise
  // ---------------------------------------------------------------------------

  lemma {:induction false} LaterPrefix(ms: seq<Message>, n: nat, last: int)
    requires n <= |ms|
    ensures Later(ms[..n], last) <= Later(ms, last)
    decreases |ms|
  {
    if n == |ms| {
      assert ms[..n] == ms;
    } else {
      LaterPrefix(ms[..|ms| - 1], n, last);
      assert ms[..|ms| - 1][..n] == ms[..n];
    }
  }

  lemma {:induction false} KeptRising(calls: seq<Call>)
    ensures Rising(Kept(calls)) && forall i :: 0 <= i < |Kept(calls)| ==> 1 <= Kept(calls)[i].seqNo <= |calls|
    decreases |calls|
  {
    if calls == [] {
    } else {
      var n := |calls| - 1;
      KeptRising(calls[..n]);
      var before := Kept(calls[..n]);
      assert Kept(calls) == before + if calls[n].keep then [Message(n + 1, calls[n].text)] else [];
      hide Kept;
      if calls[n].keep {
        RisingSnoc(before, Message(n + 1, calls[n].text));
      } else {
        assert Kept(calls) == before;
      }
    }
  }

  lemma {:induction false} RisingSnoc(ms: seq<Message>, m: Message)
    requires Rising(ms) && m.seqNo >= 1 && forall i :: 0 <= i < |ms| ==> 1 <= ms[i].seqNo < m.seqNo
    ensures Rising(ms + [m]) && forall i :: 0 <= i < |ms + [m]| ==> 1 <= (ms + [m])[i].seqNo <= m.seqNo
  {
  }

  lemma {:induction false} LaterSplit(a: seq<Message>, b: seq<Message>, last: int)
    ensures Later(a + b, last) == Later(a, last) + Later(b, last)
    decreases |b|
  {
    if b == [] {
      assert a + b == a;
    } else {
      var n := |b| - 1;
      LaterSplit(a, b[..n], last);
      assert (a + b)[..|a + b| - 1] == a + b[..n] && (a + b)[|a + b| - 1] == b[n];
      var tail := if b[n].seqNo > last then [b[n]] else [];
      assert Later(a + b, last) == Later(a + b[..n], last) + tail;
      Regroup(Later(a, last), Later(b[..n], last), tail);
    }
  }

  lemma {:induction false} Regroup<T>(a: seq<T>, b: seq<T>, c: seq<T>)
    ensures a + b + c == a + (b + c)
  {
  }

  lemma {:induction false} LaterShort(ms: seq<Message>, last: int)
    ensures |Later(ms, last)| <= |ms|
    decreases |ms|
  {
    if ms == [] {
    } else {
      LaterShort(ms[..|ms| - 1], last);
    }
  }

  predicate AllAfter(ms: seq<Message>, last: int) {
    forall i :: 0 <= i < |ms| ==> ms[i].seqNo > last
  }

  lemma {:induction false} AllAfterSplit(ms: seq<Message>, last: int)
    requires AllAfter(ms, last) && ms != []
    ensures var n := |ms| - 1; AllAfter(ms[..n], last) && ms[n].seqNo > last && ms == ms[..n] + [ms[n]]
  {
  }

  lemma {:induction false} LaterAll(ms: seq<Message>, last: int)
    requires AllAfter(ms, last)
    ensures Later(ms, last) == ms
    decreases |ms|
  {
    hide AllAfter;
    if ms == [] {
    } else {
      AllAfterSplit(ms, last);
      LaterAll(ms[..|ms| - 1], last);
    }
  }

  lemma {:induction false} LaterSome(ms: seq<Message>, last: int) returns (i: nat)
    requires Later(ms, last) != []
    ensures i < |ms| && ms[i].seqNo > last
    decreases |ms|
  {
    i := |ms| - 1;
    if ms[i].seqNo <= last {
      i := LaterSome(ms[..i], last);
    }
  }

  lemma {:induction false} KeptExact(calls: seq<Call>, m: Message)
    ensures m in Kept(calls) <==>
            1 <= m.seqNo <= |calls| && calls[m.seqNo - 1].keep && m.text == calls[m.seqNo - 1].text
    decreases |calls|
  {
    if calls == [] {
    } else {
      KeptExact(calls[..|calls| - 1], m);
    }
  }

  lemma {:induction false} LaterExact(ms: seq<Message>, last: int, m: Message)
    ensures m in Later(ms, last) <==> m in ms && m.seqNo > last
    decreases |ms|
  {
    if ms == [] {
    } else {
      var n := |ms| - 1;
      LaterExact(ms[..n], last, m);
      assert ms == ms[..n] + [ms[n]];
    }
  }

  lemma {:induction false} LaterRising(ms: seq<Message>, last: int)
    requires Rising(ms)
    ensures Rising(Later(ms, last))
    decreases |ms|
  {
    if ms == [] {
    } else {
      var n := |ms| - 1;
      LaterRising(ms[..n], last);
      hide Later;
      var front := Later(ms[..n], last);
      forall i | 0 <= i < |front| ensures front[i].seqNo < ms[n].seqNo {
        LaterExact(ms[..n], last, front[i]);
        var j :| 0 <= j < n && ms[..n][j] == front[i];
        assert ms[j].seqNo < ms[n].seqNo;
      }
      LaterSnoc(ms, last);
    }
  }

  lemma {:induction false} LaterSnoc(ms: seq<Message>, last: int)
    requires ms != []
    ensures var n := |ms| - 1; Later(ms, last) == Later(ms[..n], last) + if ms[n].seqNo > last then [ms[n]] else []
  {
  }

  /**
   The messages a client missed, from the calls alone: call number `k`, counting from one,
   is among them exactly when it was to be kept and `k` is beyond the client's last, and
   they come in order.
   */
  lemma {:induction false} MissedExact(calls: seq<Call>, last: int, m: Message)
    ensures Rising(Later(Kept(calls), last))
    ensures m in Later(Kept(calls), last) <==>
            && m.seqNo > last && 1 <= m.seqNo <= |calls|
            && calls[m.seqNo - 1].keep && m.text == calls[m.seqNo - 1].text
  {
    hide Later, Kept, Rising;
    KeptRising(calls);
    LaterRising(Kept(calls), last);
    LaterExact(Kept(calls), last, m);
    KeptExact(calls, m);
  }

  /**
   A replay from the newest 512 sends exactly the bufferable messages the client missed, in
   order and each once, if and only if at most 512 of them have accumulated; otherwise it
   sends the newest 512 of them.
   */
  lemma {:induction false} ReplayComplete(calls: seq<Call>, last: int)
    ensures Rising(Newest(Kept(calls), 512))
    ensures Later(Newest(Kept(calls), 512), last) == Later(Kept(calls), last) <==> |Later(Kept(calls), last)| <= 512
    ensures Later(Newest(Kept(calls), 512), last) == Newest(Later(Kept(calls), last), 512)
  {
    hide Kept, Later, Newest, Rising;
    var all := Kept(calls);
    var cut := if |all| <= RESUME_BUFFER_LEN then 0 else |all| - RESUME_BUFFER_LEN;
    KeptRising(calls);
    RisingTail(all, cut);
    NewestIs(all, RESUME_BUFFER_LEN);
    var dropped, recent := all[..cut], all[cut..];
    assert all == dropped + recent;
    LaterSplit(dropped, recent, last);
    LaterShort(recent, last);
    NewestIs(Later(all, last), RESUME_BUFFER_LEN);
    if Later(dropped, last) == [] {
      assert Later(all, last) == Later(recent, last);
    } else {
      TailLater(all, cut, last);
      assert Later(all, last)[|Later(dropped, last)|..] == recent;
    }
  }

  lemma {:induction false} RisingTail(ms: seq<Message>, cut: nat)
    requires Rising(ms) && cut <= |ms|
    ensures Rising(ms[cut..])
  {
  }

  /** Once one of the older messages was missed, so were all the newer ones. */
  lemma {:induction false} TailLater(ms: seq<Message>, cut: nat, last: int)
    requires Rising(ms) && cut <= |ms| && Later(ms[..cut], last) != []
    ensures Later(ms[cut..], last) == ms[cut..]
  {
    hide Later;
    var i := LaterSome(ms[..cut], last);
    forall j | 0 <= j < |ms| - cut ensures ms[cut..][j].seqNo > last {
      assert ms[i].seqNo < ms[cut + j].seqNo;
    }
    LaterAll(ms[cut..], last);
  }
}
