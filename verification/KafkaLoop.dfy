/**
 `consume_loop` of freshet/common/kafka_io.py: the per-partition map of newest
 uncommitted messages, the batched commit with its flush, and its exits.  Whatever
 raises, no offset is committed whose message was not handled, or for which the
 handler produced anything that is not acknowledged, and what a crash makes the
 broker deliver again is at most one batch.
 */
module KafkaLoop {
  import opened Basics
  import opened Producer

  type Partition = (string, nat)

  datatype Msg = Msg(tp: Partition, offset: nat)

  datatype Poll = Nothing | Error | Record(m: Msg)

  /** How the loop ends: cleanly, or with an exception of the handler, a hook, the flush or a commit. */
  datatype Exit = Clean | Failed

  /** The broker's committed position of a partition. */
  function Position(committed: map<Partition, nat>, tp: Partition): nat {
    if tp in committed then committed[tp] else 0
  }

  /** The newest message of each partition. */
  function Newest(msgs: seq<Msg>): map<Partition, Msg> {
    if msgs == [] then map[]
    else Newest(msgs[..|msgs| - 1])[msgs[|msgs| - 1].tp := msgs[|msgs| - 1]]
  }

  /** The position reached after handling these messages. */
  function Reached(start: map<Partition, nat>, msgs: seq<Msg>, tp: Partition): nat {
    if tp in Newest(msgs) then Newest(msgs)[tp].offset + 1 else Position(start, tp)
  }

  /** Kafka delivers each partition in order, without gaps, from the committed offset. */
  ghost predicate InOrder(start: map<Partition, nat>, msgs: seq<Msg>)
    decreases |msgs|
  {
    if msgs == [] then true
    else var front, last := msgs[..|msgs| - 1], msgs[|msgs| - 1];
      InOrder(start, front) && last.offset == Reached(start, front, last.tp)
  }

  lemma {:induction false} InOrderPrefix(start: map<Partition, nat>, msgs: seq<Msg>, k: nat)
    requires InOrder(start, msgs) && k <= |msgs|
    ensures InOrder(start, msgs[..k])
    ensures k < |msgs| ==> msgs[k].offset == Reached(start, msgs[..k], msgs[k].tp)
    decreases |msgs|
  {
    if k < |msgs| {
      InOrderPrefix(start, msgs[..|msgs| - 1], k);
      assert msgs[..|msgs| - 1][..k] == msgs[..k];
    } else {
      assert msgs[..k] == msgs;
    }
  }

  lemma InOrderAppend(start: map<Partition, nat>, msgs: seq<Msg>, m: Msg)
    requires InOrder(start, msgs) && m.offset == Reached(start, msgs, m.tp)
    ensures InOrder(start, msgs + [m])
  {
    assert (msgs + [m])[..|msgs|] == msgs;
  }

  lemma NewestAppend(msgs: seq<Msg>, m: Msg)
    ensures Newest(msgs + [m]) == Newest(msgs)[m.tp := m]
  {
    assert (msgs + [m])[..|msgs|] == msgs;
  }

  lemma NewestOfNone(msgs: seq<Msg>)
    ensures Newest(msgs) == map[] ==> msgs == []
  {
    if msgs != [] {
      assert msgs[|msgs| - 1].tp in Newest(msgs);
    }
  }

  lemma {:induction false} NewestSplit(a: seq<Msg>, b: seq<Msg>)
    ensures Newest(a + b) == Newest(a) + Newest(b)
    decreases |b|
  {
    if b == [] {
      assert a + b == a;
    } else {
      var front, last := b[..|b| - 1], b[|b| - 1];
      assert a + b == (a + front) + [last];
      NewestSplit(a, front);
      NewestAppend(a + front, last);
    }
  }

  /** Handling in order covers every offset below the position reached. */
  lemma {:induction false} CoversBelow(start: map<Partition, nat>, msgs: seq<Msg>, tp: Partition, o: nat)
    requires InOrder(start, msgs) && Position(start, tp) <= o < Reached(start, msgs, tp)
    ensures Msg(tp, o) in msgs
    decreases |msgs|
  {
    var front, last := msgs[..|msgs| - 1], msgs[|msgs| - 1];
    assert msgs == front + [last];
    NewestAppend(front, last);
    if last.tp == tp && last.offset == o {
    } else {
      CoversBelow(start, front, tp, o);
    }
  }

  lemma {:induction false} ReachedGrows(start: map<Partition, nat>, msgs: seq<Msg>, k: nat, tp: Partition)
    requires InOrder(start, msgs) && k <= |msgs|
    ensures Reached(start, msgs[..k], tp) <= Reached(start, msgs, tp)
    decreases |msgs| - k
  {
    if k < |msgs| {
      InOrderPrefix(start, msgs, k);
      assert msgs[..k + 1] == msgs[..k] + [msgs[k]];
      NewestAppend(msgs[..k], msgs[k]);
      ReachedGrows(start, msgs, k + 1, tp);
    } else {
      assert msgs[..k] == msgs;
    }
  }

  /** All that was produced for these messages. */
  ghost function All(outputs: seq<multiset<string>>): multiset<string> {
    if outputs == [] then multiset{} else All(outputs[..|outputs| - 1]) + outputs[|outputs| - 1]
  }

  lemma {:induction false} AllHas(outputs: seq<multiset<string>>, i: nat)
    requires i < |outputs|
    ensures outputs[i] <= All(outputs)
    decreases |outputs|
  {
    if i < |outputs| - 1 { AllHas(outputs[..|outputs| - 1], i); }
  }

  lemma AllAppend(outputs: seq<multiset<string>>, output: multiset<string>)
    ensures All(outputs + [output]) == All(outputs) + output
  {
    assert (outputs + [output])[..|outputs|] == outputs;
  }

  class Consumer {
    const producer: BufferedProducer     // its `flush_checked` is the pre-commit hook
    const commitEvery: int
    const autoCommit: bool
    var committed: map<Partition, nat>
    var pending: map<Partition, Msg>
    var sinceCommit: nat
    ghost const start: map<Partition, nat>
    ghost var done: seq<Msg>     // every message whose handler and hook returned, in order
    ghost var outputs: seq<multiset<string>>  // what was produced for each of them
    ghost var covered: nat       // how many of them the last complete commit covered
    ghost var flushed: nat       // how many of them the last successful pre_commit covered

    constructor (producer: BufferedProducer, commitEvery: int, autoCommit: bool, committed: map<Partition, nat>)
      requires producer.Valid() && producer.reported == multiset{}
      ensures Valid() && this.producer == producer && done == [] && this.committed == committed == start && covered == 0
      ensures this.autoCommit == autoCommit && this.commitEvery == commitEvery
    {
      this.producer, this.commitEvery, this.autoCommit, this.committed := producer, commitEvery, autoCommit, committed;
      start, pending, sinceCommit, done, outputs, covered, flushed := committed, map[], 0, [], [], 0, 0;
    }

    function Batch(): nat {
      if commitEvery < 1 then 1 else commitEvery
    }

    /** What was produced for the flushed messages is acknowledged. */
    ghost predicate Backed()
      reads this, producer
    {
      && producer.Valid() && flushed <= |outputs| == |done|
      && All(outputs) <= producer.Produced() && All(outputs[..flushed]) <= producer.acked
    }

    /** What each partition is committed to: as of the last complete commit, or of the one under way. */
    ghost predicate Valid()
      reads this, producer
    {
      && Backed() && producer.reported == multiset{}
      && covered <= flushed <= |done| && InOrder(start, done)
      && (!autoCommit ==>
            && pending == Newest(done[covered..]) && sinceCommit == |done| - covered
            && (forall tp :: Position(committed, tp) == Reached(start, done[..covered], tp)))
      && (autoCommit ==> committed == start)
    }

    /**
     Commits never run ahead of what was handled and flushed, everything produced for
     flushed messages is acknowledged, and at most one batch would be delivered again.
     */
    ghost predicate Safe()
      reads this, producer
    {
      && Backed() && covered <= flushed <= |done| && InOrder(start, done)
      && (forall tp :: Position(committed, tp) == Position(start, tp)
                       || Position(committed, tp) == Reached(start, done[..covered], tp)
                       || Position(committed, tp) == Reached(start, done[..flushed], tp))
      && (!autoCommit ==> |done| - covered <= Batch())
    }

    lemma ValidIsSafe()
      requires Valid() && (!autoCommit ==> sinceCommit <= Batch())
      ensures Safe()
    {
    }

    /** The pre-commit hook: when it returns, everything produced so far is acknowledged. */
    method Flush() returns (ok: bool)
      requires Backed() && producer.reported == multiset{}
      modifies this`flushed, producer
      ensures Backed() && flushed == (if ok then |done| else old(flushed)) && (ok ==> producer.reported == multiset{})
    {
      ok := producer.FlushChecked();
      if ok {
        flushed := |done|;
        assert outputs[..flushed] == outputs;
      }
    }

    method CommitPending() returns (ok: bool)
      requires Valid() && !autoCommit && sinceCommit <= Batch()
      modifies this`committed, this`pending, this`sinceCommit, this`covered, this`flushed, producer
      ensures Safe() && old(covered) <= covered
      ensures ok ==> Valid() && sinceCommit == 0 && covered == |done|
    {
      if pending == map[] {
        PendingEmpty();
        assert done[..covered] == done;
        return true;
      }
      var acknowledged := Flush();
      if !acknowledged { return false; }
      ok := CommitFlushed();
    }

    /** The commits themselves, everything handled being flushed. */
    method CommitFlushed() returns (ok: bool)
      requires Valid() && !autoCommit && sinceCommit <= Batch() && flushed == |done|
      modifies this`committed, this`pending, this`sinceCommit, this`covered
      ensures Safe() && old(covered) <= covered
      ensures ok ==> Valid() && sinceCommit == 0 && covered == |done|
    {
      assert done[..flushed] == done;
      ghost var was := committed;
      var todo := CommitEach();
      CommitReached();
      assert forall tp :: Position(was, tp) == Reached(start, done[..covered], tp);
      if todo != {} { return false; }
      AllCommitted(was);
      pending, sinceCommit, covered := map[], 0, |done|;
      assert done[covered..] == [];
      return true;
    }

    lemma AllCommitted(was: map<Partition, nat>)
      requires covered <= |done|
      requires forall tp :: Position(was, tp) == Reached(start, done[..covered], tp)
      requires forall tp :: Position(committed, tp) == if tp in pending then pending[tp].offset + 1 else Position(was, tp)
      requires forall tp :: Reached(start, done, tp)
                            == (if tp in pending then pending[tp].offset + 1 else Reached(start, done[..covered], tp))
      ensures done[..|done|] == done && forall tp :: Position(committed, tp) == Reached(start, done[..|done|], tp)
    {
      assert done[..|done|] == done;
    }

    /** One synchronous commit per partition; the first that raises leaves the rest to do. */
    method CommitEach() returns (todo: set<Partition>)
      modifies this`committed
      ensures todo <= pending.Keys
      ensures forall tp :: Position(committed, tp) == if tp in pending && tp !in todo then pending[tp].offset + 1
                                                      else Position(old(committed), tp)
    {
      todo := pending.Keys;
      while todo != {}
        invariant todo <= pending.Keys
        invariant forall tp :: Position(committed, tp) == if tp in pending && tp !in todo then pending[tp].offset + 1
                                                          else Position(old(committed), tp)
        decreases |todo|
      {
        var tp :| tp in todo;
        var raised: bool := *;
        if raised { return; }
        committed := committed[tp := pending[tp].offset + 1];
        todo := todo - {tp};
      }
    }

    /** An empty map of pending messages means everything handled is committed. */
    lemma PendingEmpty()
      requires Valid() && !autoCommit && pending == map[]
      ensures covered == |done| && sinceCommit == 0
    {
      NewestOfNone(done[covered..]);
    }

    /** The position after everything handled: the pending message's, or the committed one. */
    lemma CommitReached()
      requires !autoCommit && covered <= |done| && InOrder(start, done) && pending == Newest(done[covered..])
      ensures forall tp ::
                Reached(start, done, tp)
                == (if tp in pending then pending[tp].offset + 1 else Reached(start, done[..covered], tp))
    {
      assert done == done[..covered] + done[covered..];
      NewestSplit(done[..covered], done[covered..]);
    }

    /** The handler and its hook: they may produce messages, and raise at any time. */
    method Handle() returns (ok: bool, ghost output: multiset<string>)
      requires producer.Valid()
      modifies producer
      ensures producer.Valid() && producer.Produced() == old(producer.Produced()) + output
      ensures old(producer.acked) <= producer.acked && producer.reported == old(producer.reported)
    {
      var messages: seq<string> := *;
      output := multiset{};
      for i := 0 to |messages|
        invariant producer.Valid() && producer.Produced() == old(producer.Produced()) + output
        invariant old(producer.acked) <= producer.acked && producer.reported == old(producer.reported)
      {
        producer.Produce(messages[i]);
        output := output + multiset{messages[i]};
      }
      ok := *;
    }

    /** What handling one more message does to the messages in order. */
    lemma OneMore(m: Msg, output: multiset<string>)
      requires covered <= flushed <= |done| == |outputs|
      ensures (done + [m])[covered..] == done[covered..] + [m] && (done + [m])[..covered] == done[..covered]
      ensures (done + [m])[..|done|] == done && (outputs + [output])[..flushed] == outputs[..flushed]
      ensures Newest((done + [m])[covered..]) == Newest(done[covered..])[m.tp := m]
      ensures All(outputs + [output]) == All(outputs) + output
    {
      assert (done + [m])[covered..] == done[covered..] + [m];
      NewestAppend(done[covered..], m);
      AllAppend(outputs, output);
    }

    /** The handler returned for the next message of its partition. */
    method Handled(m: Msg, ghost output: multiset<string>)
      requires Valid() && m.offset == Reached(start, done, m.tp) && All(outputs) + output <= producer.Produced()
      modifies this`pending, this`sinceCommit, this`done, this`outputs
      ensures Valid() && done == old(done) + [m] && outputs == old(outputs) + [output] && covered == old(covered)
      ensures sinceCommit == old(sinceCommit) + (if autoCommit then 0 else 1)
    {
      OneMore(m, output);
      InOrderAppend(start, done, m);
      ghost var before := done;
      done, outputs := done + [m], outputs + [output];
      assert done[..covered] == before[..covered];
      assert Backed();
      if !autoCommit {
        pending := pending[m.tp := m];
        sinceCommit := sinceCommit + 1;
      }
    }

    /** An empty poll: commit the tail of the batch, then run the idle hook. */
    method OnIdle() returns (ok: bool)
      requires Valid() && (!autoCommit ==> sinceCommit < Batch())
      modifies this, producer
      ensures done == old(done) && Safe()
      ensures ok ==> Valid() && (!autoCommit ==> sinceCommit == 0)
    {
      if !autoCommit {
        ok := CommitPending();
        if !ok { return; }
      }
      ValidIsSafe();
      ok := *;
    }

    /** One record: the handler and its hook, then perhaps a commit of the batch. */
    method OnRecord(m: Msg) returns (ok: bool)
      requires Valid() && (!autoCommit ==> sinceCommit < Batch()) && m.offset == Reached(start, done, m.tp)
      modifies this, producer
      ensures Safe() && (done == old(done) || done == old(done) + [m])
      ensures ok ==> Valid() && done == old(done) + [m] && (!autoCommit ==> sinceCommit < Batch())
    {
      ghost var output;
      ok, output := Handle();
      if !ok { ValidIsSafe(); return; }
      Handled(m, output);
      ValidIsSafe();
      if !autoCommit && sinceCommit >= Batch() {
        ok := CommitPending();
      }
    }

    /** The first i polls of the script were served, and no full batch is waiting for its commit. */
    ghost predicate Running(polls: seq<Poll>, i: nat)
      reads this, producer
    {
      Valid() && (!autoCommit ==> sinceCommit < Batch()) && i <= |polls| && done == Records(polls[..i])
    }

    /** One poll of the script; an error event is neither committed nor handled. */
    method Turn(polls: seq<Poll>, i: nat) returns (ok: bool)
      requires i < |polls| && Running(polls, i) && InOrder(start, Records(polls))
      modifies this, producer
      ensures Safe() && done <= Records(polls)
      ensures ok ==> Running(polls, i + 1) && |done| == |old(done)| + (if polls[i].Record? then 1 else 0)
    {
      RecordsNext(polls, i);
      RecordsPrefix(polls, i);
      RecordsPrefix(polls, i + 1);
      ok := true;
      if polls[i].Nothing? {
        ok := OnIdle();
      } else if polls[i].Record? {
        RecordInOrder(polls, i);
        ok := OnRecord(polls[i].m);
      } else {
        ValidIsSafe();
      }
    }

    /**
     The loop over what polling returns.  The script lists the polls of this
     run; the records among them are in order per partition.  A stop signal or
     the idle timeout may end it cleanly at any turn.
     */
    method Run(polls: seq<Poll>, maxMessages: Option<nat>) returns (exit: Exit, n: nat)
      requires Valid() && sinceCommit == 0 && done == []
      requires InOrder(start, Records(polls))
      modifies this, producer
      ensures Safe() && done <= Records(polls)
      ensures maxMessages.Some? ==> n <= maxMessages.value
      ensures exit.Clean? ==> n == |done|
      ensures exit.Clean? && !autoCommit ==> forall tp :: Position(committed, tp) == Reached(start, done, tp)
    {
      n := 0;
      var i := 0;
      while i < |polls| && (maxMessages.None? || n < maxMessages.value)
        invariant 0 <= i <= |polls| && n == |done| && Running(polls, i)
        invariant maxMessages.Some? ==> n <= maxMessages.value
        decreases |polls| - i
      {
        var stopped: bool := *;
        if stopped { break; }
        var ok := Turn(polls, i);
        if !ok { return Failed, n; }
        n := if polls[i].Record? then n + 1 else n;
        i := i + 1;
      }
      RecordsPrefix(polls, i);
      var ok := CommitTail();
      exit := if ok then Clean else Failed;
    }

    /** The clean exit commits the tail of the batch. */
    method CommitTail() returns (ok: bool)
      requires Valid() && (!autoCommit ==> sinceCommit < Batch())
      modifies this, producer
      ensures Safe() && done == old(done)
      ensures ok && !autoCommit ==> forall tp :: Position(committed, tp) == Reached(start, done, tp)
    {
      ValidIsSafe();
      ok := true;
      if !autoCommit {
        ok := CommitPending();
        assert done[..|done|] == done;
      }
    }

    /** Below each committed position every offset was handled, and all that was produced for it is acknowledged. */
    lemma CommittedWasHandled(tp: Partition, o: nat)
      requires Safe() && Position(start, tp) <= o < Position(committed, tp)
      ensures exists i :: 0 <= i < flushed && i < |outputs| && done[i] == Msg(tp, o) && outputs[i] <= producer.acked
    {
      var safe := done[..flushed];
      InOrderPrefix(start, done, flushed);
      assert done[..covered] == safe[..covered];
      ReachedGrows(start, safe, covered, tp);
      CoversBelow(start, safe, tp, o);
      var i :| 0 <= i < |safe| && safe[i] == Msg(tp, o);
      AllHas(outputs[..flushed], i);
      assert done[i] == Msg(tp, o) && outputs[..flushed][i] == outputs[i];
    }

    lemma RecordInOrder(polls: seq<Poll>, i: nat)
      requires i < |polls| && polls[i].Record? && InOrder(start, Records(polls)) && done == Records(polls[..i])
      ensures polls[i].m.offset == Reached(start, done, polls[i].m.tp)
    {
      var all := Records(polls);
      RecordsNext(polls, i);
      RecordsPrefix(polls, i + 1);
      InOrderPrefix(start, all, |done|);
      assert all[|done|] == polls[i].m && all[..|done|] == done;
    }
  }

  function Records(polls: seq<Poll>): seq<Msg> {
    if polls == [] then []
    else Records(polls[..|polls| - 1]) + (match polls[|polls| - 1] case Record(m) => [m] case _ => [])
  }

  lemma RecordsNext(polls: seq<Poll>, i: nat)
    requires i < |polls|
    ensures Records(polls[..i + 1]) == Records(polls[..i]) + (match polls[i] case Record(m) => [m] case _ => [])
  {
    assert polls[..i + 1][..i] == polls[..i];
  }

  lemma {:induction false} RecordsPrefix(polls: seq<Poll>, i: nat)
    requires i <= |polls|
    ensures Records(polls[..i]) <= Records(polls)
    decreases |polls| - i
  {
    if i < |polls| {
      RecordsNext(polls, i);
      RecordsPrefix(polls, i + 1);
    } else {
      assert polls[..i] == polls;
    }
  }
}
