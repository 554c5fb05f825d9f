/**
 `BufferedProducer` of freshet/common/kafka_io.py: messages are sent in the
 background, a failed delivery is noted by a callback, and `flush_checked` raises
 when any was.
 */
module Producer {
  class BufferedProducer {
    var errors: nat                       // failed deliveries not yet reported
    var outstanding: multiset<string>      // sent and not yet answered for
    ghost var acked: multiset<string>
    ghost var failed: multiset<string>     // since the last check
    ghost var reported: multiset<string>   // failures that a check has raised for

    /** Every message produced is in exactly one place. */
    ghost function Produced(): multiset<string>
      reads this
    {
      outstanding + acked + failed + reported
    }

    ghost predicate Valid()
      reads this
    {
      errors == |failed|
    }

    constructor ()
      ensures Valid() && Produced() == multiset{} && acked == multiset{}
    {
      errors, outstanding, acked, failed, reported := 0, multiset{}, multiset{}, multiset{}, multiset{};
    }

    /** The broker's answer for one outstanding message, through the delivery callback. */
    method Callback(m: string, ok: bool)
      requires Valid() && m in outstanding
      modifies this
      ensures Valid() && Produced() == old(Produced()) && |outstanding| == |old(outstanding)| - 1
      ensures old(acked) <= acked && reported == old(reported)
    {
      outstanding := outstanding - multiset{m};
      if ok {
        acked := acked + multiset{m};
      } else {
        errors, failed := errors + 1, failed + multiset{m};
      }
    }

    /** `produce`: queued, and whatever callbacks are due are served. */
    method Produce(m: string)
      requires Valid()
      modifies this
      ensures Valid() && Produced() == old(Produced()) + multiset{m} && old(acked) <= acked
      ensures reported == old(reported)
    {
      outstanding := outstanding + multiset{m};
      Poll();
    }

    method Poll()
      requires Valid()
      modifies this
      ensures Valid() && Produced() == old(Produced()) && old(acked) <= acked && reported == old(reported)
    {
      var answers: seq<bool> := *;
      for i := 0 to |answers|
        invariant Valid() && Produced() == old(Produced()) && old(acked) <= acked && reported == old(reported)
      {
        if outstanding != multiset{} {
          var m :| m in outstanding;
          Callback(m, answers[i]);
        }
      }
    }

    /** `flush`: waits until every message is answered for. */
    method FlushAll()
      requires Valid()
      modifies this
      ensures Valid() && Produced() == old(Produced()) && outstanding == multiset{} && old(acked) <= acked
      ensures reported == old(reported)
    {
      while outstanding != multiset{}
        invariant Valid() && Produced() == old(Produced()) && old(acked) <= acked && reported == old(reported)
        decreases |outstanding|
      {
        var m :| m in outstanding;
        var ok: bool := *;
        Callback(m, ok);
      }
    }

    /**
     `flush_checked`: returning means that everything produced so far was
     acknowledged, apart from failures an earlier check already raised for.
     Raising forgets the failures it reports, so a caller must not carry on.
     */
    method FlushChecked() returns (ok: bool)
      requires Valid()
      modifies this
      ensures Valid() && Produced() == old(Produced()) && outstanding == multiset{} && old(acked) <= acked
      ensures acked + reported == Produced()
      ensures ok <==> reported == old(reported)
    {
      FlushAll();
      ok := errors == 0;
      if !ok {
        errors, failed, reported := 0, multiset{}, reported + failed;
      }
    }
  }
}
