/** The Blob side of a write transaction: a staging allocator whose blocks are split
    among free runs, open writers, finished versions and discarded chunks, and the
    byte streams those chunks carry. */
module BlobStaging {
  import opened ExtentRuns
  import opened Retirement
  import opened StagingRuns
  import opened Basics

  type BlobId = nat

  datatype Writer = Writer(chunks: seq<Run>, buffer: seq<byte>, position: nat)

  datatype Version = Version(size: nat, chunks: seq<Run>)

  /** Who a block belongs to while the transaction is open. */
  datatype Owner = Nobody | Free | Prepared | Writing(id: BlobId) | Pending(id: BlobId) | Discarded

  type Owners = int -> Owner

  ghost predicate OwnedBy(chunks: seq<Run>, owners: Owners, o: Owner) {
    forall b {:trigger Mult(chunks, b)} :: Mult(chunks, b) == One(owners(b) == o)
  }

  /** Every run list the transaction keeps, and the end of the staged tail. */
  datatype Lists = Lists(free: seq<Run>, prepared: seq<Run>, writers: map<BlobId, Writer>,
                         pending: map<BlobId, Version>, discarded: seq<Run>, next: nat)

  /** The initial free runs lie once each below the committed boundary. */
  ghost predicate InitialRuns(initial: seq<Run>, start: nat) {
    forall b :: Mult(initial, b) <= 1 && (b >= start ==> Mult(initial, b) == 0)
  }

  ghost predicate KnownOwner(o: Owner, writers: map<BlobId, Writer>, pending: map<BlobId, Version>) {
    && (o.Writing? ==> o.id in writers)
    && (o.Pending? ==> o.id in pending)
  }

  /** The lists held per Blob: each covers exactly its own blocks. */
  ghost predicate OwnedPerBlob(writers: map<BlobId, Writer>, pending: map<BlobId, Version>, owners: Owners) {
    && (forall id {:trigger OwnedBy(writers[id].chunks, owners, Writing(id))} ::
          id in writers ==> OwnedBy(writers[id].chunks, owners, Writing(id)))
    && (forall id {:trigger OwnedBy(pending[id].chunks, owners, Pending(id))} ::
          id in pending ==> OwnedBy(pending[id].chunks, owners, Pending(id)))
    && (forall b {:trigger KnownOwner(owners(b), writers, pending)} :: KnownOwner(owners(b), writers, pending))
  }

  /** The owned blocks are those of the initial free runs and of the appended tail. */
  ghost predicate Owned(owners: Owners, initial: seq<Run>, start: nat, next: nat) {
    forall b {:trigger Mult(initial, b)} :: owners(b) != Nobody <==> Mult(initial, b) > 0 || start <= b < next
  }

  /** Each block of the initial free runs and of the appended tail has one owner, and
      each list covers exactly the blocks of its owner. */
  ghost predicate Split(l: Lists, owners: Owners, initial: seq<Run>, start: nat) {
    && start <= l.next
    && OwnedBy(l.free, owners, Free)
    && OwnedBy(l.prepared, owners, Prepared)
    && OwnedBy(l.discarded, owners, Discarded)
    && OwnedPerBlob(l.writers, l.pending, owners)
    && Owned(owners, initial, start, l.next)
  }

  ghost function Given(owners: Owners, r: Run, o: Owner): Owners {
    b => if r.Has(b) then o else owners(b)
  }

  // ---------------------------------------------------------------- how the split changes

  lemma {:induction false} OwnedByKept(chunks: seq<Run>, owners: Owners, owners': Owners, o: Owner)
    requires OwnedBy(chunks, owners, o)
    requires forall b :: owners(b) == o <==> owners'(b) == o
    ensures OwnedBy(chunks, owners', o)
  {
    forall b ensures Mult(chunks, b) == One(owners'(b) == o) {
      assert Mult(chunks, b) == One(owners(b) == o);
    }
  }

  /** A block of some Blob other than `id`. */
  ghost predicate Elsewhere(o: Owner, id: BlobId) { (o.Writing? || o.Pending?) && o.id != id }

  ghost predicate SameElsewhere<T>(m: map<BlobId, T>, m': map<BlobId, T>, id: BlobId) {
    forall k :: k != id ==> (k in m <==> k in m') && (k in m ==> m[k] == m'[k])
  }

  /** A change that concerns one Blob only keeps the lists of all the others. */
  lemma {:induction false} PerBlobChange(writers: map<BlobId, Writer>, pending: map<BlobId, Version>, owners: Owners,
                      writers': map<BlobId, Writer>, pending': map<BlobId, Version>, owners': Owners, id: BlobId)
    requires OwnedPerBlob(writers, pending, owners)
    requires SameElsewhere(writers, writers', id) && SameElsewhere(pending, pending', id)
    requires forall b :: owners(b) == owners'(b) || (!Elsewhere(owners(b), id) && !Elsewhere(owners'(b), id))
    requires id in writers' ==> OwnedBy(writers'[id].chunks, owners', Writing(id))
    requires id in pending' ==> OwnedBy(pending'[id].chunks, owners', Pending(id))
    requires forall b :: (owners'(b) == Writing(id) ==> id in writers') && (owners'(b) == Pending(id) ==> id in pending')
    ensures OwnedPerBlob(writers', pending', owners')
  {
    forall k | k in writers' ensures OwnedBy(writers'[k].chunks, owners', Writing(k)) {
      if k != id {
        assert OwnedBy(writers[k].chunks, owners, Writing(k));
        OwnedByKept(writers[k].chunks, owners, owners', Writing(k));
      }
    }
    forall k | k in pending' ensures OwnedBy(pending'[k].chunks, owners', Pending(k)) {
      if k != id {
        assert OwnedBy(pending[k].chunks, owners, Pending(k));
        OwnedByKept(pending[k].chunks, owners, owners', Pending(k));
      }
    }
    forall b ensures KnownOwner(owners'(b), writers', pending') {
      assert KnownOwner(owners(b), writers, pending);
    }
  }

  ghost predicate PerBlob(o: Owner) { o.Writing? || o.Pending? }

  lemma {:induction false} OwnedPerBlobKept(writers: map<BlobId, Writer>, pending: map<BlobId, Version>, owners: Owners, owners': Owners)
    requires OwnedPerBlob(writers, pending, owners)
    requires forall b :: owners(b) == owners'(b) || (!PerBlob(owners(b)) && !PerBlob(owners'(b)))
    ensures OwnedPerBlob(writers, pending, owners')
  {
    forall id | id in writers ensures OwnedBy(writers[id].chunks, owners', Writing(id)) {
      assert OwnedBy(writers[id].chunks, owners, Writing(id));
      OwnedByKept(writers[id].chunks, owners, owners', Writing(id));
    }
    forall id | id in pending ensures OwnedBy(pending[id].chunks, owners', Pending(id)) {
      assert OwnedBy(pending[id].chunks, owners, Pending(id));
      OwnedByKept(pending[id].chunks, owners, owners', Pending(id));
    }
    forall b ensures KnownOwner(owners'(b), writers, pending) {
      assert KnownOwner(owners(b), writers, pending);
    }
  }

  /** What first fit takes belonged to nobody else. */
  lemma {:induction false} TakenWasFree(free: seq<Run>, next: nat, owners: Owners, initial: seq<Run>, start: nat,
                     r: Run, free': seq<Run>, next': nat, b: int)
    requires InitialRuns(initial, start) && start <= next
    requires OwnedBy(free, owners, Free) && Owned(owners, initial, start, next)
    requires Mult(free, b) + One(b >= next) == Mult(free', b) + One(b >= next') + One(r.Has(b))
    requires next' == next || (r.start == next && next' == next + r.count)
    ensures r.Has(b) ==> owners(b) == Free || owners(b) == Nobody
    ensures Mult(free', b) == One(!r.Has(b) && owners(b) == Free)
    ensures r.Has(b) || owners(b) != Nobody <==> Mult(initial, b) > 0 || start <= b < next'
  {
    assert Mult(free, b) == One(owners(b) == Free);
    assert owners(b) != Nobody <==> Mult(initial, b) > 0 || start <= b < next;
  }

  lemma {:induction false} SplitStage(l: Lists, owners: Owners, initial: seq<Run>, start: nat, r: Run, free': seq<Run>, next': nat)
    requires InitialRuns(initial, start) && Split(l, owners, initial, start)
    requires forall b :: Mult(l.free, b) + One(b >= l.next) == Mult(free', b) + One(b >= next') + One(r.Has(b))
    requires next' == l.next || (r.start == l.next && next' == l.next + r.count)
    ensures forall b :: r.Has(b) ==> owners(b) == Free || owners(b) == Nobody
    ensures Split(l.(free := free', next := next', prepared := l.prepared + [r]), Given(owners, r, Prepared), initial, start)
  {
    var owners' := Given(owners, r, Prepared);
    forall b
      ensures r.Has(b) ==> owners(b) == Free || owners(b) == Nobody
      ensures Mult(free', b) == One(owners'(b) == Free)
      ensures owners'(b) != Nobody <==> Mult(initial, b) > 0 || start <= b < next'
    {
      TakenWasFree(l.free, l.next, owners, initial, start, r, free', next', b);
    }
    MultPush(l.prepared, r);
    forall b ensures Mult(l.prepared + [r], b) == One(owners'(b) == Prepared) {
      assert Mult(l.prepared, b) == One(owners(b) == Prepared);
    }
    OwnedByKept(l.discarded, owners, owners', Discarded);
    OwnedPerBlobKept(l.writers, l.pending, owners, owners');
  }

  function Dropping(runs: seq<Run>, k: nat): seq<Run>
    requires k < |runs|
  {
    runs[..k] + runs[k + 1..]
  }

  /** One prepared chunk goes back to the free runs. */
  lemma {:induction false} SplitRelease(l: Lists, owners: Owners, initial: seq<Run>, start: nat, k: nat, free': seq<Run>)
    requires Split(l, owners, initial, start) && k < |l.prepared| && Gapped(l.free) && Gapped(free')
    requires forall b :: Covers(free', b) <==> Covers(l.free, b) || l.prepared[k].Has(b)
    ensures Split(l.(free := free', prepared := Dropping(l.prepared, k)), Given(owners, l.prepared[k], Free), initial, start)
    ensures forall b :: l.prepared[k].Has(b) ==> owners(b) == Prepared
  {
    var r := l.prepared[k];
    var owners' := Given(owners, r, Free);
    forall b
      ensures Mult(free', b) == One(owners'(b) == Free)
      ensures Mult(Dropping(l.prepared, k), b) == One(owners'(b) == Prepared)
      ensures r.Has(b) ==> owners(b) == Prepared
    {
      assert Mult(l.free, b) == One(owners(b) == Free);
      assert Mult(l.prepared, b) == One(owners(b) == Prepared);
      MultSplit(l.prepared, k, b);
      MultConcat(l.prepared[..k], l.prepared[k + 1..], b);
      GappedOnce(free', b);
    }
    OwnedByKept(l.discarded, owners, owners', Discarded);
    OwnedPerBlobKept(l.writers, l.pending, owners, owners');
    SameOwned(owners, owners', initial, start, l.next);
  }

  ghost function Renamed(owners: Owners, x: Owner, y: Owner): Owners {
    b => if owners(b) == x then y else owners(b)
  }

  lemma {:induction false} SameOwned(owners: Owners, owners': Owners, initial: seq<Run>, start: nat, next: nat)
    requires Owned(owners, initial, start, next)
    requires forall b :: owners(b) == Nobody <==> owners'(b) == Nobody
    ensures Owned(owners', initial, start, next)
  {
    forall b ensures owners'(b) != Nobody <==> Mult(initial, b) > 0 || start <= b < next {
      assert owners(b) != Nobody <==> Mult(initial, b) > 0 || start <= b < next;
    }
  }

  /** Prepared chunks become the writer's own. */
  lemma {:induction false} SplitKeep(l: Lists, owners: Owners, initial: seq<Run>, start: nat, id: BlobId, w: Writer)
    requires Split(l, owners, initial, start) && id in l.writers
    requires w.chunks == l.writers[id].chunks + l.prepared
    ensures Split(l.(prepared := [], writers := l.writers[id := w]), Renamed(owners, Prepared, Writing(id)), initial, start)
  {
    var owners' := Renamed(owners, Prepared, Writing(id));
    assert OwnedBy(l.writers[id].chunks, owners, Writing(id));
    assert OwnedBy(w.chunks, owners', Writing(id)) by {
      forall b ensures Mult(w.chunks, b) == One(owners'(b) == Writing(id)) {
        MultConcat(l.writers[id].chunks, l.prepared, b);
      }
    }
    PendingKept(l, owners, owners', id);
    PerBlobChange(l.writers, l.pending, owners, l.writers[id := w], l.pending, owners', id);
    OwnedByKept(l.free, owners, owners', Free);
    OwnedByKept(l.discarded, owners, owners', Discarded);
    SameOwned(owners, owners', initial, start, l.next);
  }

  lemma {:induction false} PendingKept(l: Lists, owners: Owners, owners': Owners, id: BlobId)
    requires OwnedPerBlob(l.writers, l.pending, owners)
    requires forall b :: owners(b) == Pending(id) <==> owners'(b) == Pending(id)
    ensures id in l.pending ==> OwnedBy(l.pending[id].chunks, owners', Pending(id))
    ensures forall b :: owners'(b) == Pending(id) ==> id in l.pending
  {
    if id in l.pending {
      assert OwnedBy(l.pending[id].chunks, owners, Pending(id));
      OwnedByKept(l.pending[id].chunks, owners, owners', Pending(id));
    } else {
      forall b ensures owners'(b) != Pending(id) {
        assert KnownOwner(owners(b), l.writers, l.pending);
      }
    }
  }

  lemma {:induction false} WriterKept(l: Lists, owners: Owners, owners': Owners, id: BlobId)
    requires OwnedPerBlob(l.writers, l.pending, owners)
    requires forall b :: owners(b) == Writing(id) <==> owners'(b) == Writing(id)
    ensures id in l.writers ==> OwnedBy(l.writers[id].chunks, owners', Writing(id))
    ensures forall b :: owners'(b) == Writing(id) ==> id in l.writers
  {
    if id in l.writers {
      assert OwnedBy(l.writers[id].chunks, owners, Writing(id));
      OwnedByKept(l.writers[id].chunks, owners, owners', Writing(id));
    } else {
      forall b ensures owners'(b) != Writing(id) {
        assert KnownOwner(owners(b), l.writers, l.pending);
      }
    }
  }

  /** A writer is given up: its chunks become prepared ones, to be released. */
  lemma {:induction false} SplitAbandon(l: Lists, owners: Owners, initial: seq<Run>, start: nat, id: BlobId)
    requires Split(l, owners, initial, start) && id in l.writers && l.prepared == []
    ensures Split(l.(prepared := l.writers[id].chunks, writers := l.writers - {id}),
                  Renamed(owners, Writing(id), Prepared), initial, start)
  {
    var owners' := Renamed(owners, Writing(id), Prepared);
    assert OwnedBy(l.writers[id].chunks, owners, Writing(id));
    forall b ensures Mult(l.writers[id].chunks, b) == One(owners'(b) == Prepared) {
      assert Mult(l.prepared, b) == One(owners(b) == Prepared);
    }
    PendingKept(l, owners, owners', id);
    PerBlobChange(l.writers, l.pending, owners, l.writers - {id}, l.pending, owners', id);
    OwnedByKept(l.free, owners, owners', Free);
    OwnedByKept(l.discarded, owners, owners', Discarded);
    SameOwned(owners, owners', initial, start, l.next);
  }

  /** A pending version is replaced or erased: its chunks are kept, but discarded. */
  lemma {:induction false} SplitDiscard(l: Lists, owners: Owners, initial: seq<Run>, start: nat, id: BlobId)
    requires Split(l, owners, initial, start) && id in l.pending
    ensures Split(l.(discarded := l.discarded + l.pending[id].chunks, pending := l.pending - {id}),
                  Renamed(owners, Pending(id), Discarded), initial, start)
  {
    var owners' := Renamed(owners, Pending(id), Discarded);
    assert OwnedBy(l.pending[id].chunks, owners, Pending(id));
    forall b ensures Mult(l.discarded + l.pending[id].chunks, b) == One(owners'(b) == Discarded) {
      MultConcat(l.discarded, l.pending[id].chunks, b);
    }
    WriterKept(l, owners, owners', id);
    PerBlobChange(l.writers, l.pending, owners, l.writers, l.pending - {id}, owners', id);
    OwnedByKept(l.free, owners, owners', Free);
    OwnedByKept(l.prepared, owners, owners', Prepared);
    SameOwned(owners, owners', initial, start, l.next);
  }

  /** A finished writer becomes a pending version. */
  lemma {:induction false} SplitFinish(l: Lists, owners: Owners, initial: seq<Run>, start: nat, id: BlobId, v: Version)
    requires Split(l, owners, initial, start) && id in l.writers && id !in l.pending && l.prepared == []
    requires v.chunks == l.writers[id].chunks
    ensures Split(l.(writers := l.writers - {id}, pending := l.pending[id := v]),
                  Renamed(owners, Writing(id), Pending(id)), initial, start)
    ensures OwnedBy(v.chunks, Renamed(owners, Writing(id), Pending(id)), Pending(id))
  {
    var owners' := Renamed(owners, Writing(id), Pending(id));
    assert OwnedBy(l.writers[id].chunks, owners, Writing(id));
    PendingKept(l, owners, owners, id);
    assert OwnedBy(v.chunks, owners', Pending(id));
    PerBlobChange(l.writers, l.pending, owners, l.writers - {id}, l.pending[id := v], owners', id);
    OwnedByKept(l.free, owners, owners', Free);
    OwnedByKept(l.prepared, owners, owners', Prepared);
    OwnedByKept(l.discarded, owners, owners', Discarded);
    SameOwned(owners, owners', initial, start, l.next);
  }

  /** A new writer owns nothing yet. */
  lemma {:induction false} SplitOpen(l: Lists, owners: Owners, initial: seq<Run>, start: nat, id: BlobId, w: Writer)
    requires Split(l, owners, initial, start) && id !in l.writers && w.chunks == []
    ensures Split(l.(writers := l.writers[id := w]), owners, initial, start)
  {
    WriterKept(l, owners, owners, id);
    PendingKept(l, owners, owners, id);
    assert OwnedBy([], owners, Writing(id));
    PerBlobChange(l.writers, l.pending, owners, l.writers[id := w], l.pending, owners, id);
  }
}
