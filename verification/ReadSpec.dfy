/**
 The latched read: what one pass does, and what any race between reads and other
 committers for one latch comes to.
*/
module ReadSpec {
  type Byte = bv8

  datatype ErrorCode = Success | WouldBlock | CompletionDenied | Failure(code: int)

  /** What the operating system answers to a read that may not block. */
  datatype Answer = Bytes(n: nat) | Fails(code: int) | Blocks

  datatype Status = Waiting | Completed(ec: ErrorCode, size: nat)

  /** A read operation and its socket: the unread bytes, those placed in the
      caller's buffer, and whether the operation has completed. */
  datatype Reader = Reader(stream: seq<Byte>, taken: seq<Byte>, status: Status)

  function Read(stream: seq<Byte>, answer: Answer): (r: (ErrorCode, seq<Byte>))
    ensures r.1 <= stream
    ensures r.1 != [] ==> r.0 == Success
  {
    match answer
    case Bytes(n) => (Success, stream[..if n <= |stream| then n else |stream|])
    case Fails(code) => (Failure(code), [])
    case Blocks => (WouldBlock, [])
  }

  /** One pass, given whether the latch is committed; returns whether it is afterwards. */
  function Pass(r: Reader, committed: bool, waitEc: ErrorCode, answer: Answer): (Reader, bool) {
    if committed then (r.(status := Completed(CompletionDenied, 0)), true)
    else if waitEc != Success then (r.(status := Completed(waitEc, 0)), true)
    else
      var (ec, bytes) := Read(r.stream, answer);
      var r' := r.(stream := r.stream[|bytes|..], taken := r.taken + bytes);
      if ec == WouldBlock then (r', false)
      else (r'.(status := Completed(ec, |bytes|)), true)
  }

  // ----- A race for one latch

  /** Others count the commits of the latch by anyone but the readers, arrived the
      bytes that each reader's socket has received. */
  datatype Race = Race(committed: bool, readers: seq<Reader>, arrived: seq<seq<Byte>>, others: nat)

  datatype Event =
    | Arrive(reader: nat, bytes: seq<Byte>)
    | Wake(reader: nat, waitEc: ErrorCode, answer: Answer)
    | OtherCommit

  function Start(readers: nat): Race {
    Race(false, seq(readers, _ => Reader([], [], Waiting)), seq(readers, _ => []), 0)
  }

  /** A committer that finds the latch committed is denied; a completed operation is not resumed. */
  function Step(s: Race, e: Event): Race {
    match e
    case OtherCommit => if s.committed then s else s.(committed := true, others := s.others + 1)
    case Arrive(i, bytes) =>
      if i < |s.readers| && i < |s.arrived| then
        s.(readers := s.readers[i := s.readers[i].(stream := s.readers[i].stream + bytes)],
           arrived := s.arrived[i := s.arrived[i] + bytes])
      else s
    case Wake(i, waitEc, answer) =>
      if i < |s.readers| && s.readers[i].status.Waiting? then
        var (r, committed) := Pass(s.readers[i], s.committed, waitEc, answer);
        s.(readers := s.readers[i := r], committed := committed)
      else s
  }

  function Run(readers: nat, events: seq<Event>): Race {
    if events == [] then Start(readers)
    else Step(Run(readers, events[..|events| - 1]), events[|events| - 1])
  }

  ghost predicate Won(r: Reader) {
    r.status.Completed? && r.status.ec != CompletionDenied
  }

  /** The latch is committed by one party: another committer or one reader. */
  ghost predicate OneWinner(s: Race) {
    && (forall i, j :: 0 <= i < j < |s.readers| ==> !(Won(s.readers[i]) && Won(s.readers[j])))
    && (forall i :: 0 <= i < |s.readers| && Won(s.readers[i]) ==> s.others == 0)
    && s.others <= 1
    && (s.committed <==> s.others == 1 || exists i :: 0 <= i < |s.readers| && Won(s.readers[i]))
  }

  /** Each byte that has arrived is in the caller's buffer or still in the stream,
      in order, and only the winner of the latch has taken any. */
  ghost predicate NothingLost(s: Race) {
    && |s.arrived| == |s.readers|
    && forall i :: 0 <= i < |s.readers| ==>
         var r := s.readers[i];
         && s.arrived[i] == r.taken + r.stream
         && (r.taken != [] ==> r.status == Completed(Success, |r.taken|))
         && (Won(r) ==> r.status.size == |r.taken|)
  }

  /** Errors of the wait come from the system: it never reports a denial. */
  ghost predicate FromSystem(events: seq<Event>) {
    forall i :: 0 <= i < |events| && events[i].Wake? ==> events[i].waitEc != CompletionDenied
  }

  lemma WinnerStep(s: Race, e: Event)
    requires OneWinner(s) && (e.Wake? ==> e.waitEc != CompletionDenied)
    ensures OneWinner(Step(s, e))
  {
    var s' := Step(s, e);
    if e.Wake? && e.reader < |s.readers| && s.readers[e.reader].status.Waiting? {
      assert forall j :: 0 <= j < |s.readers| && j != e.reader ==> s'.readers[j] == s.readers[j];
      assert !s.committed ==> forall j :: 0 <= j < |s.readers| ==> !Won(s.readers[j]);
      if !s.committed && s'.committed {
        assert Won(s'.readers[e.reader]);
      }
      if s.committed && s.others == 0 {
        var w :| 0 <= w < |s.readers| && Won(s.readers[w]);
        assert Won(s'.readers[w]);
      }
    } else if e.Arrive? && e.reader < |s.readers| && e.reader < |s.arrived| {
      assert forall j :: 0 <= j < |s.readers| ==> (Won(s'.readers[j]) <==> Won(s.readers[j]));
      if exists w :: 0 <= w < |s.readers| && Won(s.readers[w]) {
        var w :| 0 <= w < |s.readers| && Won(s.readers[w]);
        assert Won(s'.readers[w]);
      }
    }
  }

  lemma NothingLostStep(s: Race, e: Event)
    requires NothingLost(s)
    ensures NothingLost(Step(s, e))
  {
  }

  /** However reads and other committers race for the latch, exactly one of them
      commits it once it is committed, a reader takes bytes only by winning, and
      every reader's bytes are all accounted for. */
  lemma {:induction false} RaceIsSafe(readers: nat, events: seq<Event>)
    requires FromSystem(events)
    ensures OneWinner(Run(readers, events)) && NothingLost(Run(readers, events))
  {
    if events != [] {
      RaceIsSafe(readers, events[..|events| - 1]);
      WinnerStep(Run(readers, events[..|events| - 1]), events[|events| - 1]);
      NothingLostStep(Run(readers, events[..|events| - 1]), events[|events| - 1]);
    }
  }

  /** A read that did not win the latch has taken nothing: all its bytes are still in the stream. */
  lemma {:induction false} DeniedReadTakesNothing(readers: nat, events: seq<Event>, i: nat)
    requires FromSystem(events)
    requires i < |Run(readers, events).readers| && !Won(Run(readers, events).readers[i])
    ensures
      var s := Run(readers, events);
      i < |s.arrived| && s.readers[i].taken == [] && s.readers[i].stream == s.arrived[i]
  {
    RaceIsSafe(readers, events);
  }

  // ----- What a pass comes to

  lemma RunExtend(readers: nat, events: seq<Event>, e: Event)
    ensures Run(readers, events + [e]) == Step(Run(readers, events), e)
  {
    assert (events + [e])[..|events|] == events;
  }

  /** A pass that finds the latch open and would block on its read changes nothing:
      the latch stays open to everyone, and the read goes on waiting. */
  lemma BlockedPassChangesNothing(readers: nat, events: seq<Event>, i: nat)
    requires !Run(readers, events).committed
    requires i < |Run(readers, events).readers| && Run(readers, events).readers[i].status.Waiting?
    ensures Run(readers, events + [Wake(i, Success, Blocks)]) == Run(readers, events)
  {
    var s := Run(readers, events);
    RunExtend(readers, events, Wake(i, Success, Blocks));
    assert s.readers[i].stream[0..] == s.readers[i].stream && s.readers[i].taken + [] == s.readers[i].taken;
    assert s.readers[i := s.readers[i]] == s.readers;
  }

  /** Any other pass completes its read, and no other, and leaves the latch committed:
      with a denial if it was committed before, else with the error of the wait, else
      with the error of the read, else with all the bytes that arrived and fit. */
  lemma OtherPassCompletes(readers: nat, events: seq<Event>, i: nat, waitEc: ErrorCode, answer: Answer)
    requires i < |Run(readers, events).readers| && Run(readers, events).readers[i].status.Waiting?
    requires Run(readers, events).committed || waitEc != Success || !answer.Blocks?
    ensures
      var s, s' := Run(readers, events), Run(readers, events + [Wake(i, waitEc, answer)]);
      && s'.committed && s'.others == s.others && |s'.readers| == |s.readers|
      && (forall j :: 0 <= j < |s.readers| && j != i ==> s'.readers[j] == s.readers[j])
      && var r, r' := s.readers[i], s'.readers[i];
      && r.taken + r.stream == r'.taken + r'.stream
      && r'.status == if s.committed then Completed(CompletionDenied, 0)
                      else if waitEc != Success then Completed(waitEc, 0)
                      else if answer.Fails? then Completed(Failure(answer.code), 0)
                      else Completed(Success, if answer.n <= |r.stream| then answer.n else |r.stream|)
  {
    RunExtend(readers, events, Wake(i, waitEc, answer));
    PassCompletes(Run(readers, events).readers[i], Run(readers, events).committed, waitEc, answer);
  }

  lemma PassCompletes(r: Reader, committed: bool, waitEc: ErrorCode, answer: Answer)
    requires committed || waitEc != Success || !answer.Blocks?
    ensures
      var (r', committed') := Pass(r, committed, waitEc, answer);
      && committed' && r.taken + r.stream == r'.taken + r'.stream
      && r'.status == if committed then Completed(CompletionDenied, 0)
                      else if waitEc != Success then Completed(waitEc, 0)
                      else if answer.Fails? then Completed(Failure(answer.code), 0)
                      else Completed(Success, if answer.n <= |r.stream| then answer.n else |r.stream|)
  {
  }

  /** would_block is never reported: if no wait reports it, no read completes with it. */
  lemma {:induction false} NobodyReportsWouldBlock(readers: nat, events: seq<Event>, i: nat)
    requires forall k :: 0 <= k < |events| && events[k].Wake? ==> events[k].waitEc != WouldBlock
    requires i < |Run(readers, events).readers| && Run(readers, events).readers[i].status.Completed?
    ensures Run(readers, events).readers[i].status.ec != WouldBlock
  {
    if events != [] {
      var before := events[..|events| - 1];
      if Run(readers, before).readers[i].status.Completed? {
        NobodyReportsWouldBlock(readers, before, i);
      }
    }
  }

  /** Bytes that arrive can be read after those that arrived before, by that reader alone. */
  lemma ArrivedBytesWait(readers: nat, events: seq<Event>, i: nat, bytes: seq<Byte>)
    requires FromSystem(events) && i < |Run(readers, events).readers|
    ensures
      var s, s' := Run(readers, events), Run(readers, events + [Arrive(i, bytes)]);
      && s'.committed == s.committed && s'.others == s.others && |s'.readers| == |s.readers|
      && s'.readers[i] == s.readers[i].(stream := s.readers[i].stream + bytes)
      && (forall j :: 0 <= j < |s.readers| && j != i ==> s'.readers[j] == s.readers[j])
  {
    RaceIsSafe(readers, events);
    RunExtend(readers, events, Arrive(i, bytes));
  }

  /** Anyone else who commits wins exactly if the latch was open. */
  lemma OthersWinIfOpen(readers: nat, events: seq<Event>)
    ensures
      var s, s' := Run(readers, events), Run(readers, events + [OtherCommit]);
      s'.committed && s'.readers == s.readers && s'.others == s.others + if s.committed then 0 else 1
  {
    RunExtend(readers, events, OtherCommit);
  }
}
