/**
 Update identity in freshet/ingest/statuspage.py: the block loop of
 `parse_atom`, which tells repeats of one displayed minute apart by an ordinal,
 and the identity string `_make` digests.  The digest is taken to be injective,
 so identities stand for update ids.
 */
module Identity {
  import opened Basics
  import opened Timestamps
  import Keys

  /** One update block: its displayed time as plain text, the groups matched in it, and what it says. */
  datatype Block = Block(marker: string, when: Option<Stamp>, status: string, body: string)

  datatype Update = Update(identity: string, createdAt: Time, status: string, body: string)

  function Markers(blocks: seq<Block>): seq<string> {
    seq(|blocks|, i requires 0 <= i < |blocks| => blocks[i].marker)
  }

  function Count(markers: seq<string>, m: string): nat {
    if markers == [] then 0
    else Count(markers[..|markers| - 1], m) + (if markers[|markers| - 1] == m then 1 else 0)
  }

  /** How many blocks above this one show the same minute. */
  function Ordinal(markers: seq<string>, i: nat): nat
    requires i < |markers|
  {
    Count(markers[..i], markers[i])
  }

  function IdentityOf(markers: seq<string>, i: nat): string
    requires i < |markers|
  {
    Keys.Key(markers[i], '#', Ordinal(markers, i))
  }

  /** All identities of an entry. */
  function Identities(markers: seq<string>): set<string> {
    set i | 0 <= i < |markers| :: IdentityOf(markers, i)
  }

  function MadeFrom(block: Block, identity: string, revised: Time): Update {
    var stamp := if block.when.None? then None else ParseWhen(block.when.value, revised);
    Update(identity, Coalesce(stamp, Some(revised)).value, block.status, block.body)
  }

  /** Each update so far carries its block's identity, and its time or the entry's. */
  predicate Made(blocks: seq<Block>, revised: Time, out: seq<Update>) {
    |out| <= |blocks| &&
    forall i :: 0 <= i < |out| ==> out[i] == MadeFrom(blocks[i], IdentityOf(Markers(blocks), i), revised)
  }

  /** `parse_atom`'s loop over the update blocks of one entry. */
  method ParseBlocks(blocks: seq<Block>, revised: Time) returns (out: seq<Update>)
    ensures |out| == |blocks|
    ensures forall i :: 0 <= i < |blocks| ==> SaysOf(out[i], blocks, i, revised)
  {
    out := [];
    var seenMarkers: map<string, nat> := map[];
    ghost var markers := Markers(blocks);
    for i := 0 to |blocks|
      invariant |out| == i && Made(blocks, revised, out)
      invariant forall m :: Count(markers[..i], m) == if m in seenMarkers then seenMarkers[m] + 1 else 0
    {
      var marker := blocks[i].marker;
      var ordinal := if marker in seenMarkers then seenMarkers[marker] + 1 else 0;
      seenMarkers := seenMarkers[marker := ordinal];
      var stamp := if blocks[i].when.None? then None else ParseWhen(blocks[i].when.value, revised);
      var createdAt := if stamp.None? then revised else stamp.value;
      MadeNext(blocks, revised, out, Update(Keys.Key(marker, '#', ordinal), createdAt, blocks[i].status, blocks[i].body));
      out := out + [Update(Keys.Key(marker, '#', ordinal), createdAt, blocks[i].status, blocks[i].body)];
      CountNext(markers, i);
    }
    forall i | 0 <= i < |blocks| ensures SaysOf(out[i], blocks, i, revised) {
      CountIsNumber(markers[..i], markers[i]);
      assert Above(blocks, i) == set k | 0 <= k < |markers[..i]| && markers[..i][k] == markers[i];
    }
  }

  /** The blocks above that show the same minute. */
  function Above(blocks: seq<Block>, i: nat): set<int>
    requires i < |blocks|
  {
    set k | 0 <= k < i && blocks[k].marker == blocks[i].marker
  }

  /**
     The update says what its block says, at the block's own time if that can be resolved
     and else at the entry's, under its displayed minute and the number of blocks above with it.
   */
  predicate SaysOf(update: Update, blocks: seq<Block>, i: nat, revised: Time)
    requires i < |blocks|
  {
    var block := blocks[i];
    && update.status == block.status && update.body == block.body
    && update.identity == Keys.Key(block.marker, '#', |Above(blocks, i)|)
    && (if block.when.Some? && ParseWhen(block.when.value, revised).Some?
        then Some(update.createdAt) == ParseWhen(block.when.value, revised) else update.createdAt == revised)
  }

  lemma {:induction false} CountIsNumber(markers: seq<string>, m: string)
    ensures Count(markers, m) == |set k | 0 <= k < |markers| && markers[k] == m|
    decreases |markers|
  {
    if markers != [] {
      var n := |markers| - 1;
      CountIsNumber(markers[..n], m);
      var before := set k | 0 <= k < n && markers[..n][k] == m;
      var all := set k | 0 <= k < |markers| && markers[k] == m;
      assert all == if markers[n] == m then before + {n} else before;
    }
  }

  lemma {:induction false} MadeNext(blocks: seq<Block>, revised: Time, out: seq<Update>, next: Update)
    requires Made(blocks, revised, out) && |out| < |blocks|
    requires next == MadeFrom(blocks[|out|], IdentityOf(Markers(blocks), |out|), revised)
    ensures Made(blocks, revised, out + [next])
  {
  }

  lemma {:induction false} CountNext(markers: seq<string>, i: nat)
    requires i < |markers|
    ensures forall m :: Count(markers[..i + 1], m) == Count(markers[..i], m) + (if m == markers[i] then 1 else 0)
  {
    assert markers[..i + 1][..i] == markers[..i];
  }

  // ----- counting

  lemma {:induction false} CountAppend(a: seq<string>, b: seq<string>, m: string)
    ensures Count(a + b, m) == Count(a, m) + Count(b, m)
    decreases |b|
  {
    if b == [] {
      assert a + b == a;
    } else {
      assert (a + b)[..|a + b| - 1] == a + b[..|b| - 1];
      CountAppend(a, b[..|b| - 1], m);
    }
  }

  lemma {:induction false} CountZero(a: seq<string>, m: string)
    ensures Count(a, m) == 0 <==> m !in a
    decreases |a|
  {
    if a != [] {
      CountZero(a[..|a| - 1], m);
      assert a == a[..|a| - 1] + [a[|a| - 1]];
    }
  }

  lemma CountPrefix(a: seq<string>, i: nat, j: nat, m: string)
    requires i <= j <= |a|
    ensures Count(a[..i], m) <= Count(a[..j], m)
  {
    assert a[..j] == a[..i] + a[i..j];
    CountAppend(a[..i], a[i..j], m);
  }

  // ----- theorems

  /** Within an entry no two updates share an identity. */
  lemma IdentitiesDistinct(markers: seq<string>, i: nat, j: nat)
    requires i < j < |markers|
    ensures IdentityOf(markers, i) != IdentityOf(markers, j)
  {
    if IdentityOf(markers, i) == IdentityOf(markers, j) {
      Keys.KeyInjective(markers[i], Ordinal(markers, i), markers[j], Ordinal(markers, j), '#');
      assert markers[..i + 1][..i] == markers[..i];
      CountPrefix(markers, i + 1, j, markers[i]);
      assert false;
    }
  }

  /** A displayed minute with n updates has exactly the identities 0 to n - 1, wherever the updates stand. */
  lemma {:induction false} IdentityRange(markers: seq<string>, m: string, k: nat)
    ensures Keys.Key(m, '#', k) in Identities(markers) <==> k < Count(markers, m)
  {
    if Keys.Key(m, '#', k) in Identities(markers) {
      var i :| 0 <= i < |markers| && IdentityOf(markers, i) == Keys.Key(m, '#', k);
      Keys.KeyInjective(markers[i], Ordinal(markers, i), m, k, '#');
      assert markers[..i + 1][..i] == markers[..i];
      CountPrefix(markers, i + 1, |markers|, m);
      assert markers[..|markers|] == markers;
    }
    if k < Count(markers, m) {
      var i := NthWith(markers, m, k);
      assert IdentityOf(markers, i) == Keys.Key(m, '#', k);
    }
  }

  lemma {:induction false} NthWith(markers: seq<string>, m: string, k: nat) returns (i: nat)
    requires k < Count(markers, m)
    ensures i < |markers| && markers[i] == m && Ordinal(markers, i) == k
    decreases |markers|
  {
    var n := |markers| - 1;
    if k < Count(markers[..n], m) {
      i := NthWith(markers[..n], m, k);
      assert markers[..n][..i] == markers[..i];
    } else {
      i := n;
    }
  }

  /** The identities depend on how often each minute is shown, not on the order of the blocks. */
  lemma OnlyCountsMatter(a: seq<string>, b: seq<string>)
    requires forall m :: Count(a, m) == Count(b, m)
    ensures Identities(a) == Identities(b)
  {
    forall key | key in Identities(a) ensures key in Identities(b) {
      var i :| 0 <= i < |a| && IdentityOf(a, i) == key;
      IdentityRange(a, a[i], Ordinal(a, i));
      IdentityRange(b, a[i], Ordinal(a, i));
    }
    forall key | key in Identities(b) ensures key in Identities(a) {
      var i :| 0 <= i < |b| && IdentityOf(b, i) == key;
      IdentityRange(b, b[i], Ordinal(b, i));
      IdentityRange(a, b[i], Ordinal(b, i));
    }
  }

  /** Prepending newer updates never withdraws an identity. */
  lemma PrependKeepsIdentities(newer: seq<string>, prior: seq<string>)
    ensures Identities(prior) <= Identities(newer + prior)
  {
    forall key | key in Identities(prior) ensures key in Identities(newer + prior) {
      var i :| 0 <= i < |prior| && IdentityOf(prior, i) == key;
      IdentityRange(prior, prior[i], Ordinal(prior, i));
      CountAppend(newer, prior, prior[i]);
      IdentityRange(newer + prior, prior[i], Ordinal(prior, i));
    }
  }

  /** An update's ordinal moves by exactly the number of newer updates that show its minute. */
  lemma PrependShifts(newer: seq<string>, prior: seq<string>, i: nat)
    requires i < |prior|
    ensures (newer + prior)[|newer| + i] == prior[i]
    ensures Ordinal(newer + prior, |newer| + i) == Ordinal(prior, i) + Count(newer, prior[i])
  {
    assert (newer + prior)[..|newer| + i] == newer + prior[..i];
    CountAppend(newer, prior[..i], prior[i]);
  }

  /** So an update keeps its own identity exactly when no newer one shows its minute. */
  lemma KeepsIdentity(newer: seq<string>, prior: seq<string>, i: nat)
    requires i < |prior|
    ensures IdentityOf(newer + prior, |newer| + i) == IdentityOf(prior, i) <==> prior[i] !in newer
  {
    PrependShifts(newer, prior, i);
    CountZero(newer, prior[i]);
    if IdentityOf(newer + prior, |newer| + i) == IdentityOf(prior, i) {
      Keys.KeyInjective(prior[i], Ordinal(newer + prior, |newer| + i), prior[i], Ordinal(prior, i), '#');
    }
  }

  /** When one does, the newer update takes over the identity the older one had. */
  lemma NewerTakesOver(newer: seq<string>, prior: seq<string>, i: nat)
    requires i < |prior| && Ordinal(prior, i) < Count(newer, prior[i])
    ensures exists j :: 0 <= j < |newer| && IdentityOf(newer + prior, j) == IdentityOf(prior, i)
  {
    var j := NthWith(newer, prior[i], Ordinal(prior, i));
    assert (newer + prior)[..j] == newer[..j];
    assert IdentityOf(newer + prior, j) == IdentityOf(prior, i);
  }
}
