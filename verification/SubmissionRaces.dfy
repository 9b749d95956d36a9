/**
 * Submissions racing on one photo table and one content-addressed store. Every lookup, upload, commit, rollback
 * and delete is a step of its own, in any interleaving, and a request may die anywhere.
 */
module SubmissionRaces {
  import opened Common
  import opened Submission

  type RequestId = nat

  /** Where a request is suspended; `found` is what its lookup returned, `uploaded` the CIDs it has uploaded itself. */
  datatype Call =
    | Looking(photos: seq<Hash>)
    | Uploading(photos: seq<Hash>, found: map<Hash, Cid>, pending: set<nat>, uploaded: seq<Cid>, failed: bool)
    | Committing(photos: seq<Hash>, found: map<Hash, Cid>, uploaded: seq<Cid>)
    | Enqueueing(uploaded: seq<Cid>)
    | RollingBack(uploaded: seq<Cid>)
    | Cleaning(uploaded: seq<Cid>, left: seq<Cid>)

  /** How a request ended: answered 201 or not, and what it had newly uploaded. */
  datatype Ended = Ended(ok: bool, uploaded: seq<Cid>)

  /**
   * `ok`: the statement succeeds. `effect`: a store operation takes effect, also if it fails. `i`: which one
   * settles.
   */
  datatype Oracle = Oracle(ok: bool, effect: bool, i: nat, found: map<Hash, Cid>)

  /**
   * `rows` are the committed proofs, each under the id of its request; `stored` is the content in the store,
   * `removed` the CIDs for which a delete was ever issued; `dead` are requests that died where they stood.
   */
  datatype System = System(
    rows: map<RequestId, seq<PhotoRow>>,
    stored: set<Cid>,
    removed: set<Cid>,
    calls: map<RequestId, Call>,
    dead: map<RequestId, Call>,
    ended: map<RequestId, Ended>,
    used: set<RequestId>)

  datatype Event =
    | Begin(k: RequestId, photos: seq<Hash>)
    | Step(k: RequestId, oracle: Oracle)
    | Crash(k: RequestId)

  ghost predicate Owns(rows: map<RequestId, seq<PhotoRow>>, h: Hash, c: Cid) {
    exists p, i :: p in rows && 0 <= i < |rows[p]| && rows[p][i] == PhotoRow(c, Some(h))
  }

  ghost function OwnedHashes(rows: map<RequestId, seq<PhotoRow>>): set<Hash> {
    set p, i | p in rows && 0 <= i < |rows[p]| && rows[p][i].sha256.Some? :: rows[p][i].sha256.value
  }

  /** The lookup by hash: every photo whose hash a row owns, with the CID on that row. */
  ghost predicate LookupOk(rows: map<RequestId, seq<PhotoRow>>, photos: seq<Hash>, found: map<Hash, Cid>) {
    && (forall h :: h in found ==> h in photos && Owns(rows, h, found[h]))
    && (forall h :: h in photos && h in OwnedHashes(rows) ==> h in found)
  }

  function RowsFor(photos: seq<Hash>, found: map<Hash, Cid>): seq<PhotoRow> {
    seq(|photos|, i requires 0 <= i < |photos| =>
      if photos[i] in found then PhotoRow(found[photos[i]], None) else PhotoRow(CidOf(photos[i]), Some(photos[i])))
  }

  function Fresh(photos: seq<Hash>, found: map<Hash, Cid>, n: nat): set<nat>
    requires n <= |photos|
  {
    if n == 0 then {} else Fresh(photos, found, n - 1) + (if photos[n - 1] in found then {} else {n - 1})
  }

  ghost predicate Enabled(x: System, e: Event) {
    match e
    case Begin(k, _) => k !in x.used
    case Crash(k) => k in x.calls
    case Step(k, o) =>
      && k in x.calls
      && (x.calls[k].Looking? && o.ok ==> LookupOk(x.rows, x.calls[k].photos, o.found))
      && (x.calls[k].Uploading? && x.calls[k].pending != {} ==> o.i in x.calls[k].pending && o.i < |x.calls[k].photos|)
      && (x.calls[k].Cleaning? && x.calls[k].left != [] ==> o.i < |x.calls[k].left|)
  }

  ghost function Advance(x: System, k: RequestId, o: Oracle): System
    requires Enabled(x, Step(k, o))
  {
    match x.calls[k]
    case Looking(photos) =>
      if o.ok then x.(calls := x.calls[k := Uploading(photos, o.found, Fresh(photos, o.found, |photos|), [], false)])
      else x.(calls := x.calls - {k}, ended := x.ended[k := Ended(false, [])])
    case Uploading(photos, found, pending, uploaded, failed) =>
      if pending == {} then
        x.(calls := x.calls[k := if failed then Cleaning(uploaded, uploaded) else Committing(photos, found, uploaded)])
      else
        var c := CidOf(photos[o.i]);
        x.(stored := if o.ok || o.effect then x.stored + {c} else x.stored,
           calls := x.calls[k := Uploading(photos, found, pending - {o.i}, if o.ok then uploaded + [c] else uploaded,
                                           failed || !o.ok)])
    case Committing(photos, found, uploaded) =>
      if o.ok && HashesFree(RowsFor(photos, found), OwnedHashes(x.rows)) then
        x.(rows := x.rows[k := RowsFor(photos, found)], calls := x.calls[k := Enqueueing(uploaded)])
      else x.(calls := x.calls[k := Cleaning(uploaded, uploaded)])
    case Enqueueing(uploaded) =>
      if o.ok then x.(calls := x.calls - {k}, ended := x.ended[k := Ended(true, uploaded)])
      else x.(calls := x.calls[k := RollingBack(uploaded)])
    case RollingBack(uploaded) =>
      x.(rows := if o.ok then x.rows - {k} else x.rows, calls := x.calls[k := Cleaning(uploaded, uploaded)])
    case Cleaning(uploaded, left) =>
      if left == [] then x.(calls := x.calls - {k}, ended := x.ended[k := Ended(false, uploaded)])
      else
        x.(removed := x.removed + {left[o.i]},
           stored := if o.effect then x.stored - {left[o.i]} else x.stored,
           calls := x.calls[k := Cleaning(uploaded, left[..o.i] + left[o.i + 1..])])
  }

  ghost function Apply(x: System, e: Event): System
    requires Enabled(x, e)
  {
    match e
    case Begin(k, photos) => x.(calls := x.calls[k := Looking(photos)], used := x.used + {k})
    case Crash(k) => x.(calls := x.calls - {k}, dead := x.dead[k := x.calls[k]])
    case Step(k, o) => Advance(x, k, o)
  }

  const EMPTY := System(map[], {}, {}, map[], map[], map[], {})

  ghost predicate Runs(x: System, es: seq<Event>, y: System)
    decreases es
  {
    if es == [] then y == x
    else Enabled(x, es[0]) && Runs(Apply(x, es[0]), es[1..], y)
  }

  ghost predicate Reachable(y: System) {
    exists es :: Runs(EMPTY, es, y)
  }

  // ---- what every interleaving keeps ----

  /** Content that was put into the store at some time: it is still there, or a delete was issued for it. */
  ghost predicate Seen(x: System, c: Cid) {
    c in x.stored || c in x.removed
  }

  ghost predicate RowOk(x: System, row: PhotoRow) {
    (row.sha256.Some? ==> row.cid == CidOf(row.sha256.value)) && Seen(x, row.cid)
  }

  ghost predicate RowsOk(x: System) {
    forall p, i :: p in x.rows && 0 <= i < |x.rows[p]| ==> RowOk(x, x.rows[p][i])
  }

  /** What was looked up is the CID of the bytes, and seen. */
  ghost predicate FoundOk(x: System, found: map<Hash, Cid>) {
    forall h :: h in found ==> found[h] == CidOf(h) && Seen(x, found[h])
  }

  /** What a request uploads is never of bytes it has found. */
  ghost predicate UploadedOk(found: map<Hash, Cid>, uploaded: seq<Cid>) {
    forall c :: c in uploaded ==> c.bytes !in found
  }

  ghost predicate CallOk(x: System, c: Call) {
    match c
    case Looking(_) => true
    case Uploading(photos, found, pending, uploaded, failed) =>
      && FoundOk(x, found) && UploadedOk(found, uploaded)
      && (forall i :: i in pending ==> i < |photos| && photos[i] !in found)
      && (!failed ==> forall i :: 0 <= i < |photos| && photos[i] !in found && i !in pending ==>
          Seen(x, CidOf(photos[i])))
    case Committing(photos, found, uploaded) =>
      && FoundOk(x, found) && UploadedOk(found, uploaded)
      && (forall i :: 0 <= i < |photos| && photos[i] !in found ==> Seen(x, CidOf(photos[i])))
    case Enqueueing(_) => true
    case RollingBack(_) => true
    case Cleaning(uploaded, left) =>
      && (forall c :: c in left ==> c in uploaded)
      && (forall c :: c in uploaded ==> c in left || c in x.removed)
  }

  /** A request that failed, or is failing, had newly uploaded this CID. */
  ghost predicate Failing(x: System, k: RequestId, c: Cid) {
    || (k in x.ended && !x.ended[k].ok && c in x.ended[k].uploaded)
    || (k in x.calls && x.calls[k].Cleaning? && c in x.calls[k].uploaded)
    || (k in x.dead && x.dead[k].Cleaning? && c in x.dead[k].uploaded)
  }

  ghost predicate Blamed(x: System, c: Cid) {
    exists k :: Failing(x, k, c)
  }

  ghost predicate Inv(x: System) {
    && RowsOk(x)
    && (forall k :: k in x.calls ==> CallOk(x, x.calls[k]))
    && (forall k, c :: k in x.ended && !x.ended[k].ok && c in x.ended[k].uploaded ==> c in x.removed)
    && (forall c :: c in x.removed ==> Blamed(x, c))
    && IdsOk(x)
  }

  /** Request ids are used once, and a request is in flight, dead or ended. */
  ghost predicate IdsOk(x: System) {
    && x.calls.Keys <= x.used && x.dead.Keys <= x.used && x.ended.Keys <= x.used
    && x.calls.Keys !! x.dead.Keys && x.calls.Keys !! x.ended.Keys
  }

  lemma IdsKept(x: System, e: Event)
    requires IdsOk(x) && Enabled(x, e)
    ensures IdsOk(Apply(x, e))
  {
    if e.Step? { CallIdsKept(x, e.k, e.oracle); }
  }

  lemma CallIdsKept(x: System, k: RequestId, o: Oracle)
    requires IdsOk(x) && Enabled(x, Step(k, o))
    ensures IdsOk(Advance(x, k, o))
  {
    if x.calls[k].Cleaning? {
      CleaningIdsKept(x, k, o);
    } else {
      var y := Advance(x, k, o);
      assert y.calls.Keys <= x.calls.Keys && y.ended.Keys <= x.ended.Keys + {k} && y.dead == x.dead;
    }
  }

  lemma CleaningIdsKept(x: System, k: RequestId, o: Oracle)
    requires IdsOk(x) && Enabled(x, Step(k, o)) && x.calls[k].Cleaning?
    ensures IdsOk(Advance(x, k, o))
  {
    var y := Advance(x, k, o);
    assert y.calls.Keys <= x.calls.Keys && y.ended.Keys <= x.ended.Keys + {k} && y.dead == x.dead;
  }

  /** Nothing that was seen is forgotten: it is stored, or recorded as removed. */
  lemma SeenForever(x: System, e: Event, c: Cid)
    requires Enabled(x, e) && Seen(x, c)
    ensures Seen(Apply(x, e), c)
  {}

  lemma {:induction false} FreshExactly(photos: seq<Hash>, found: map<Hash, Cid>, n: nat, i: nat)
    requires n <= |photos|
    ensures i in Fresh(photos, found, n) <==> i < n && photos[i] !in found
  {
    if n > 0 { FreshExactly(photos, found, n - 1, i); }
  }

  /** Looking up photos in a sound table yields the CIDs of their bytes. */
  lemma LookupSound(x: System, photos: seq<Hash>, found: map<Hash, Cid>)
    requires RowsOk(x) && LookupOk(x.rows, photos, found)
    ensures FoundOk(x, found)
  {
    forall h | h in found
      ensures found[h] == CidOf(h) && Seen(x, found[h])
    {
      var p, i :| p in x.rows && 0 <= i < |x.rows[p]| && x.rows[p][i] == PhotoRow(found[h], Some(h));
      assert RowOk(x, x.rows[p][i]);
    }
  }

  lemma FoundKept(x: System, e: Event, found: map<Hash, Cid>)
    requires Enabled(x, e) && FoundOk(x, found)
    ensures FoundOk(Apply(x, e), found)
  {
    forall h | h in found
      ensures Seen(Apply(x, e), found[h])
    {
      SeenForever(x, e, found[h]);
    }
  }

  /** A call that does not move stays sound. */
  lemma OtherCallKept(x: System, e: Event, c: Call)
    requires Enabled(x, e) && CallOk(x, c)
    ensures CallOk(Apply(x, e), c)
  {
    var y := Apply(x, e);
    assert x.removed <= y.removed;
    if c.Uploading? || c.Committing? {
      FoundKept(x, e, c.found);
      forall i | 0 <= i < |c.photos| && Seen(x, CidOf(c.photos[i]))
        ensures Seen(y, CidOf(c.photos[i]))
      {
        SeenForever(x, e, CidOf(c.photos[i]));
      }
    }
  }

  lemma RowsKept(x: System, e: Event)
    requires Inv(x) && Enabled(x, e)
    ensures RowsOk(Apply(x, e))
  {
    var y := Apply(x, e);
    forall p, i | p in y.rows && 0 <= i < |y.rows[p]|
      ensures RowOk(y, y.rows[p][i])
    {
      if p in x.rows && y.rows[p] == x.rows[p] {
        assert RowOk(x, x.rows[p][i]);
        SeenForever(x, e, x.rows[p][i].cid);
      } else {
        assert e.Step? && p == e.k && x.calls[p].Committing? && CallOk(x, x.calls[p]);
      }
    }
  }

  lemma UploadKept(x: System, k: RequestId, o: Oracle)
    requires Inv(x) && Enabled(x, Step(k, o)) && x.calls[k].Uploading? && x.calls[k].pending != {}
    ensures CallOk(Advance(x, k, o), Advance(x, k, o).calls[k])
  {
    var y := Advance(x, k, o);
    var c := x.calls[k];
    assert CallOk(x, c);
    FoundKept(x, Step(k, o), c.found);
    forall i | 0 <= i < |c.photos| && Seen(x, CidOf(c.photos[i]))
      ensures Seen(y, CidOf(c.photos[i]))
    {
      SeenForever(x, Step(k, o), CidOf(c.photos[i]));
    }
  }

  lemma CleanKept(x: System, k: RequestId, o: Oracle)
    requires Inv(x) && Enabled(x, Step(k, o)) && x.calls[k].Cleaning? && x.calls[k].left != []
    ensures CallOk(Advance(x, k, o), Advance(x, k, o).calls[k])
  {
    var c := x.calls[k];
    assert CallOk(x, c);
    var left := c.left[..o.i] + c.left[o.i + 1..];
    forall d | d in c.left
      ensures d in left || d == c.left[o.i]
    {
      var j :| 0 <= j < |c.left| && c.left[j] == d;
      if j < o.i { assert left[j] == d; } else if j > o.i { assert left[j - 1] == d; }
    }
  }

  lemma OwnCallKept(x: System, k: RequestId, o: Oracle)
    requires Inv(x) && Enabled(x, Step(k, o)) && k in Advance(x, k, o).calls
    ensures CallOk(Advance(x, k, o), Advance(x, k, o).calls[k])
  {
    var c := x.calls[k];
    assert CallOk(x, c);
    if c.Uploading? && c.pending != {} {
      UploadKept(x, k, o);
    } else if c.Cleaning? {
      CleanKept(x, k, o);
    } else if c.Looking? {
      LookupSound(x, c.photos, o.found);
      forall i: nat
        ensures i in Fresh(c.photos, o.found, |c.photos|) <==> i < |c.photos| && c.photos[i] !in o.found
      {
        FreshExactly(c.photos, o.found, |c.photos|, i);
      }
    }
  }

  /** A failing request stays one, wherever it goes on or dies. */
  lemma FailingKept(x: System, e: Event, k: RequestId, c: Cid)
    requires IdsOk(x) && Enabled(x, e) && Failing(x, k, c)
    ensures Failing(Apply(x, e), k, c)
  {
    if e.Step? && e.k == k {
      assert x.calls[k].Cleaning?;
    }
  }

  lemma DeleteBlamed(x: System, k: RequestId, o: Oracle, c: Cid)
    requires Inv(x) && Enabled(x, Step(k, o)) && c in Advance(x, k, o).removed && c !in x.removed
    ensures Failing(Advance(x, k, o), k, c)
  {
    assert CallOk(x, x.calls[k]);
  }

  /** Blame is never lost, and every delete finds it. */
  lemma BlameKept(x: System, e: Event, c: Cid)
    requires Inv(x) && Enabled(x, e) && c in Apply(x, e).removed
    ensures Blamed(Apply(x, e), c)
  {
    if c in x.removed {
      var k :| Failing(x, k, c);
      FailingKept(x, e, k, c);
    } else {
      DeleteBlamed(x, e.k, e.oracle, c);
    }
  }

  lemma EndedKept(x: System, e: Event, k: RequestId, c: Cid)
    requires Enabled(x, e) && (e.Step? ==> CallOk(x, x.calls[e.k]))
    requires k in x.ended && !x.ended[k].ok && c in x.ended[k].uploaded ==> c in x.removed
    requires k in Apply(x, e).ended && !Apply(x, e).ended[k].ok && c in Apply(x, e).ended[k].uploaded
    ensures c in Apply(x, e).removed
  {}

  /** An event moves one call at most; every other call in flight is as it was. */
  lemma OneCallMoves(x: System, e: Event, k: RequestId)
    requires Enabled(x, e) && k in Apply(x, e).calls && k != e.k
    ensures k in x.calls && Apply(x, e).calls[k] == x.calls[k]
  {}

  lemma CallKept(x: System, e: Event, k: RequestId)
    requires Inv(x) && Enabled(x, e) && k in Apply(x, e).calls
    ensures CallOk(Apply(x, e), Apply(x, e).calls[k])
  {
    if k != e.k {
      OneCallMoves(x, e, k);
      OtherCallKept(x, e, x.calls[k]);
    } else if e.Step? {
      OwnCallKept(x, k, e.oracle);
    }
  }

  lemma EventKeepsInv(x: System, e: Event)
    requires Inv(x) && Enabled(x, e)
    ensures Inv(Apply(x, e))
  {
    var y := Apply(x, e);
    RowsKept(x, e);
    IdsKept(x, e);
    forall k | k in y.calls
      ensures CallOk(y, y.calls[k])
    {
      CallKept(x, e, k);
    }
    forall k, c | k in y.ended && !y.ended[k].ok && c in y.ended[k].uploaded
      ensures c in y.removed
    {
      if e.Step? { assert CallOk(x, x.calls[e.k]); }
      EndedKept(x, e, k, c);
    }
    forall c | c in y.removed
      ensures Blamed(y, c)
    {
      BlameKept(x, e, c);
    }
  }

  lemma {:induction false} RunKeepsInv(x: System, es: seq<Event>, y: System)
    requires Inv(x) && Runs(x, es, y)
    ensures Inv(y)
    decreases es
  {
    if es != [] {
      EventKeepsInv(x, es[0]);
      RunKeepsInv(Apply(x, es[0]), es[1..], y);
    }
  }

  lemma ReachableInv(y: System)
    requires Reachable(y)
    ensures Inv(y)
  {
    var es :| Runs(EMPTY, es, y);
    RunKeepsInv(EMPTY, es, y);
  }

  // ---- when a committed proof is without its photo ----

  /** Every committed row has its content in the store. */
  ghost predicate AllStored(x: System) {
    forall p, i :: p in x.rows && 0 <= i < |x.rows[p]| ==> x.rows[p][i].cid in x.stored
  }

  ghost predicate Carried(rows: map<RequestId, seq<PhotoRow>>, c: Cid) {
    exists p, i :: p in rows && 0 <= i < |rows[p]| && rows[p][i].cid == c
  }

  /** A clean-up's delete takes effect on a CID that a committed row carries. */
  ghost predicate DeletesCarried(x: System, e: Event) {
    && e.Step? && e.k in x.calls && x.calls[e.k].Cleaning? && e.oracle.effect
    && e.oracle.i < |x.calls[e.k].left| && Carried(x.rows, x.calls[e.k].left[e.oracle.i])
  }

  /** Rows are committed one of which has no content in the store (any more). */
  ghost predicate CommitsMissing(x: System, e: Event) {
    && e.Step? && e.k in x.calls && x.calls[e.k].Committing? && e.oracle.ok
    && var rows := RowsFor(x.calls[e.k].photos, x.calls[e.k].found);
       HashesFree(rows, OwnedHashes(x.rows)) && exists i :: 0 <= i < |rows| && rows[i].cid !in x.stored
  }

  lemma CleaningLosesIff(x: System, k: RequestId, o: Oracle)
    requires AllStored(x) && Enabled(x, Step(k, o)) && x.calls[k].Cleaning?
    ensures AllStored(Advance(x, k, o)) <==> !DeletesCarried(x, Step(k, o))
  {
    var y := Advance(x, k, o);
    if DeletesCarried(x, Step(k, o)) {
      var c := x.calls[k].left[o.i];
      var p, i :| p in x.rows && 0 <= i < |x.rows[p]| && x.rows[p][i].cid == c;
      assert p in y.rows && y.rows[p][i].cid !in y.stored;
    } else {
      forall p, i | p in y.rows && 0 <= i < |y.rows[p]|
        ensures y.rows[p][i].cid in y.stored
      {
        assert x.rows[p][i].cid in x.stored;
      }
    }
  }

  lemma CommittingLosesIff(x: System, k: RequestId, o: Oracle)
    requires AllStored(x) && Enabled(x, Step(k, o)) && x.calls[k].Committing?
    ensures AllStored(Advance(x, k, o)) <==> !CommitsMissing(x, Step(k, o))
  {
    var y := Advance(x, k, o);
    var rows := RowsFor(x.calls[k].photos, x.calls[k].found);
    if CommitsMissing(x, Step(k, o)) {
      var i :| 0 <= i < |rows| && rows[i].cid !in x.stored;
      assert k in y.rows && y.rows[k][i].cid !in y.stored;
    } else {
      forall p, i | p in y.rows && 0 <= i < |y.rows[p]|
        ensures y.rows[p][i].cid in y.stored
      {
        if p in x.rows && y.rows[p] == x.rows[p] { assert x.rows[p][i].cid in x.stored; }
      }
    }
  }

  /**
   * A step leaves a committed row without its content if and only if it is a clean-up's delete, taking effect, of a
   * CID that a committed row carries, or the commit of a row whose CID is not in the store.
   */
  lemma ContentLostIff(x: System, e: Event)
    requires AllStored(x) && Enabled(x, e)
    ensures !AllStored(Apply(x, e)) <==> DeletesCarried(x, e) || CommitsMissing(x, e)
  {
    if e.Step? && x.calls[e.k].Cleaning? {
      CleaningLosesIff(x, e.k, e.oracle);
    } else if e.Step? && x.calls[e.k].Committing? {
      CommittingLosesIff(x, e.k, e.oracle);
    } else {
      var y := Apply(x, e);
      forall p, i | p in y.rows && 0 <= i < |y.rows[p]|
        ensures y.rows[p][i].cid in y.stored
      {
        assert x.rows[p][i].cid in x.stored;
      }
    }
  }

  /** In every state along the run, all committed rows have their content. */
  ghost predicate AlwaysStored(x: System, es: seq<Event>)
    decreases es
  {
    AllStored(x) && (es != [] ==> Enabled(x, es[0]) && AlwaysStored(Apply(x, es[0]), es[1..]))
  }

  ghost predicate NoLoss(x: System, es: seq<Event>)
    decreases es
  {
    es != [] ==>
      && Enabled(x, es[0]) && !DeletesCarried(x, es[0]) && !CommitsMissing(x, es[0])
      && NoLoss(Apply(x, es[0]), es[1..])
  }

  lemma {:induction false} ContentKeptFrom(x: System, es: seq<Event>, y: System)
    requires Runs(x, es, y) && AllStored(x)
    ensures AlwaysStored(x, es) <==> NoLoss(x, es)
    decreases es
  {
    if es != [] {
      ContentLostIff(x, es[0]);
      if AllStored(Apply(x, es[0])) {
        ContentKeptFrom(Apply(x, es[0]), es[1..], y);
      }
    }
  }

  /** Over whole runs: every committed proof keeps its photos if and only if no step is one of those two. */
  lemma ContentKeptIff(es: seq<Event>, y: System)
    requires Runs(EMPTY, es, y)
    ensures AlwaysStored(EMPTY, es) <==> NoLoss(EMPTY, es)
  {
    ContentKeptFrom(EMPTY, es, y);
  }

  /** A committed row is without its content only if a request that failed had newly uploaded the same bytes. */
  lemma MissingIsBlamed(y: System, p: RequestId, i: nat)
    requires Reachable(y) && p in y.rows && i < |y.rows[p]| && y.rows[p][i].cid !in y.stored
    ensures Blamed(y, y.rows[p][i].cid)
  {
    ReachableInv(y);
    assert RowOk(y, y.rows[p][i]);
  }

  // ---- the guard that is missing ----

  /** A request in flight, on its way to its commit, that counts on a CID: it has found or uploaded it. */
  predicate CountsOn(c: Call, cid: Cid) {
    match c
    case Uploading(_, found, _, uploaded, _) => cid in found.Values || cid in uploaded
    case Committing(_, found, uploaded) => cid in found.Values || cid in uploaded
    case _ => false
  }

  /** A clean-up deletes only a CID that no committed row carries and no request in flight counts on. */
  ghost predicate Guarded(x: System, e: Event) {
    e.Step? && e.k in x.calls && x.calls[e.k].Cleaning? && e.oracle.i < |x.calls[e.k].left| ==>
      var cid := x.calls[e.k].left[e.oracle.i];
      !Carried(x.rows, cid) && forall k :: k in x.calls ==> !CountsOn(x.calls[k], cid)
  }

  ghost predicate RunsGuarded(x: System, es: seq<Event>, y: System)
    decreases es
  {
    if es == [] then y == x
    else Enabled(x, es[0]) && Guarded(x, es[0]) && RunsGuarded(Apply(x, es[0]), es[1..], y)
  }

  /** What a request counts on is stored, and before its commit that covers all its photos. */
  ghost predicate Provided(x: System, c: Call) {
    && (forall cid :: CountsOn(c, cid) ==> cid in x.stored)
    && (c.Uploading? ==>
          forall i :: 0 <= i < |c.photos| && !c.failed && i !in c.pending && c.photos[i] !in c.found ==>
            CidOf(c.photos[i]) in c.uploaded)
    && (c.Committing? ==>
          forall i :: 0 <= i < |c.photos| && c.photos[i] !in c.found ==> CidOf(c.photos[i]) in c.uploaded)
  }

  ghost predicate AllProvided(x: System) {
    AllStored(x) && forall k :: k in x.calls ==> Provided(x, x.calls[k])
  }

  /** A provided request commits only rows whose content is stored. */
  lemma ProvidedCommits(x: System, k: RequestId, o: Oracle)
    requires Enabled(x, Step(k, o)) && x.calls[k].Committing? && Provided(x, x.calls[k])
    ensures !CommitsMissing(x, Step(k, o))
  {
    var c := x.calls[k];
    var rows := RowsFor(c.photos, c.found);
    forall i | 0 <= i < |rows|
      ensures rows[i].cid in x.stored
    {
      assert CountsOn(c, rows[i].cid);
    }
  }

  /** What a lookup finds is carried by a committed row, so it is stored. */
  lemma FoundIsStored(x: System, photos: seq<Hash>, found: map<Hash, Cid>)
    requires AllStored(x) && LookupOk(x.rows, photos, found)
    ensures forall cid :: cid in found.Values ==> cid in x.stored
  {
    forall h | h in found
      ensures found[h] in x.stored
    {
      var p, i :| p in x.rows && 0 <= i < |x.rows[p]| && x.rows[p][i] == PhotoRow(found[h], Some(h));
    }
  }

  lemma OwnProvided(x: System, k: RequestId, o: Oracle)
    requires AllProvided(x) && Enabled(x, Step(k, o)) && k in Advance(x, k, o).calls
    ensures Provided(Advance(x, k, o), Advance(x, k, o).calls[k])
  {
    var c := x.calls[k];
    assert Provided(x, c);
    if c.Looking? {
      FoundIsStored(x, c.photos, o.found);
      forall i: nat
        ensures i in Fresh(c.photos, o.found, |c.photos|) <==> i < |c.photos| && c.photos[i] !in o.found
      {
        FreshExactly(c.photos, o.found, |c.photos|, i);
      }
    } else if c.Uploading? && c.pending != {} {
      UploadProvided(x, k, o);
    }
  }

  lemma UploadProvided(x: System, k: RequestId, o: Oracle)
    requires Enabled(x, Step(k, o)) && x.calls[k].Uploading? && x.calls[k].pending != {} && Provided(x, x.calls[k])
    ensures Provided(Advance(x, k, o), Advance(x, k, o).calls[k])
  {
    var c, d := x.calls[k], Advance(x, k, o).calls[k];
    assert x.stored <= Advance(x, k, o).stored;
    forall cid | CountsOn(d, cid)
      ensures cid in Advance(x, k, o).stored
    {
      assert CountsOn(c, cid) || cid == CidOf(c.photos[o.i]);
    }
  }

  /** A guarded event takes nothing away that another request counts on. */
  lemma OtherProvided(x: System, e: Event, k: RequestId)
    requires Enabled(x, e) && Guarded(x, e) && k in x.calls && Provided(x, x.calls[k])
    ensures Provided(Apply(x, e), x.calls[k])
  {}

  lemma GuardedKeeps(x: System, e: Event)
    requires AllProvided(x) && Enabled(x, e) && Guarded(x, e)
    ensures AllProvided(Apply(x, e))
  {
    if e.Step? && x.calls[e.k].Committing? {
      ProvidedCommits(x, e.k, e.oracle);
    }
    ContentLostIff(x, e);
    forall k | k in Apply(x, e).calls
      ensures Provided(Apply(x, e), Apply(x, e).calls[k])
    {
      if k != e.k {
        OneCallMoves(x, e, k);
        OtherProvided(x, e, k);
      } else if e.Step? {
        OwnProvided(x, k, e.oracle);
      }
    }
  }

  lemma {:induction false} RunGuardedKeeps(x: System, es: seq<Event>, y: System)
    requires AllProvided(x) && RunsGuarded(x, es, y)
    ensures AllProvided(y)
    decreases es
  {
    if es != [] {
      GuardedKeeps(x, es[0]);
      RunGuardedKeeps(Apply(x, es[0]), es[1..], y);
    }
  }

  /**
   * With the guard, in every run, whatever races or dies: every committed row has its content, and what a request
   * on its way to its commit has found or uploaded is stored.
   */
  lemma ContentKeptWhenGuarded(es: seq<Event>, y: System)
    requires RunsGuarded(EMPTY, es, y)
    ensures forall p, i :: p in y.rows && 0 <= i < |y.rows[p]| ==> y.rows[p][i].cid in y.stored
    ensures forall k, cid :: k in y.calls && CountsOn(y.calls[k], cid) ==> cid in y.stored
  {
    RunGuardedKeeps(EMPTY, es, y);
    forall k, cid | k in y.calls && CountsOn(y.calls[k], cid)
      ensures cid in y.stored
    {
      assert Provided(y, y.calls[k]);
    }
  }

  // ---- what is committed, and what 201 says ----

  /** A request that is answered 201, or still on its way there, has its proof. */
  ghost predicate AnsweredOk(x: System) {
    && (forall k :: k in x.ended && x.ended[k].ok ==> k in x.rows)
    && (forall k :: k in x.calls && (x.calls[k].Enqueueing? || x.calls[k].RollingBack?) ==> k in x.rows)
  }

  lemma StepAnswers(x: System, k: RequestId, o: Oracle)
    requires IdsOk(x) && AnsweredOk(x) && Enabled(x, Step(k, o))
    ensures AnsweredOk(Advance(x, k, o))
  {
    var y := Advance(x, k, o);
    OwnAnswer(x, k, o);
    forall j | j in y.calls && j != k
      ensures j in x.calls && y.calls[j] == x.calls[j]
    {
      OneCallMoves(x, Step(k, o), j);
    }
    forall j | j != k
      ensures j in x.rows ==> j in y.rows
      ensures j in y.ended ==> j in x.ended && y.ended[j] == x.ended[j]
    {
      OthersStay(x, k, o, j);
    }
  }

  lemma OwnAnswer(x: System, k: RequestId, o: Oracle)
    requires IdsOk(x) && AnsweredOk(x) && Enabled(x, Step(k, o))
    ensures var y := Advance(x, k, o);
            && (k in y.ended && y.ended[k].ok ==> k in y.rows)
            && (k in y.calls && (y.calls[k].Enqueueing? || y.calls[k].RollingBack?) ==> k in y.rows)
  {
    if x.calls[k].Cleaning? { CleaningAnswer(x, k, o); }
  }

  lemma CleaningAnswer(x: System, k: RequestId, o: Oracle)
    requires IdsOk(x) && Enabled(x, Step(k, o)) && x.calls[k].Cleaning?
    ensures var y := Advance(x, k, o);
            && (k in y.ended ==> !y.ended[k].ok)
            && (k in y.calls ==> y.calls[k].Cleaning?)
  {}

  lemma OthersStay(x: System, k: RequestId, o: Oracle, j: RequestId)
    requires Enabled(x, Step(k, o)) && j != k
    ensures j in x.rows ==> j in Advance(x, k, o).rows
    ensures j in Advance(x, k, o).ended ==> j in x.ended && Advance(x, k, o).ended[j] == x.ended[j]
  {}

  lemma {:induction false} RunAnswers(x: System, es: seq<Event>, y: System)
    requires Inv(x) && AnsweredOk(x) && Runs(x, es, y)
    ensures AnsweredOk(y)
    decreases es
  {
    if es != [] {
      EventKeepsInv(x, es[0]);
      if es[0].Step? { StepAnswers(x, es[0].k, es[0].oracle); }
      RunAnswers(Apply(x, es[0]), es[1..], y);
    }
  }

  /** In every interleaving: a request that was answered 201 has its proof committed, for good. */
  lemma AnsweredIsCommitted(y: System, k: RequestId)
    requires Reachable(y) && k in y.ended && y.ended[k].ok
    ensures k in y.rows
  {
    var es :| Runs(EMPTY, es, y);
    RunAnswers(EMPTY, es, y);
  }

  /**
   * A commit takes effect if and only if no row owns the hash of a new photo and no two photos have the same new bytes;
   * the proof then has a row for each photo, with the CID of its bytes, and with its hash if the photo is new.
   */
  lemma CommitsExactly(x: System, k: RequestId, o: Oracle)
    requires Reachable(x) && Enabled(x, Step(k, o)) && x.calls[k].Committing? && k !in x.rows
    ensures var c, y := x.calls[k], Advance(x, k, o);
            && (k in y.rows <==>
                  && o.ok
                  && (forall i :: 0 <= i < |c.photos| && c.photos[i] !in c.found ==>
                        c.photos[i] !in OwnedHashes(x.rows))
                  && (forall i, j :: 0 <= i < j < |c.photos| && c.photos[i] == c.photos[j] ==> c.photos[i] in c.found))
            && (k in y.rows ==>
                  && |y.rows[k]| == |c.photos|
                  && forall i :: 0 <= i < |c.photos| ==>
                       y.rows[k][i] == PhotoRow(CidOf(c.photos[i]),
                                                if c.photos[i] in c.found then None else Some(c.photos[i])))
            && y.stored == x.stored && k in y.calls
            && y.calls[k] == if k in y.rows then Enqueueing(c.uploaded) else Cleaning(c.uploaded, c.uploaded)
  {
    var c := x.calls[k];
    ReachableInv(x);
    assert CallOk(x, c);
    RowsFreeIff(c.photos, c.found, OwnedHashes(x.rows));
  }

  lemma RowsFreeIff(photos: seq<Hash>, found: map<Hash, Cid>, owned: set<Hash>)
    ensures HashesFree(RowsFor(photos, found), owned) <==>
              && (forall i :: 0 <= i < |photos| && photos[i] !in found ==> photos[i] !in owned)
              && (forall i, j :: 0 <= i < j < |photos| && photos[i] == photos[j] ==> photos[i] in found)
  {
    var rows := RowsFor(photos, found);
    if HashesFree(rows, owned) {
      forall i | 0 <= i < |photos| && photos[i] !in found
        ensures photos[i] !in owned
      {
        assert rows[i].sha256 == Some(photos[i]);
      }
      forall i, j | 0 <= i < j < |photos| && photos[i] == photos[j]
        ensures photos[i] in found
      {
        assert rows[i].sha256 == rows[j].sha256;
      }
    }
  }

  /** In every interleaving: a request never has among its uploads, and so never removes, what its lookup found. */
  lemma FoundNeverUploaded(y: System, k: RequestId, h: Hash)
    requires Reachable(y) && k in y.calls && (y.calls[k].Uploading? || y.calls[k].Committing?) && h in y.calls[k].found
    ensures y.calls[k].found[h] == CidOf(h) && y.calls[k].found[h] !in y.calls[k].uploaded
  {
    ReachableInv(y);
    assert CallOk(y, y.calls[k]);
  }

  /** Every photo row of a committed proof that owns a hash carries the CID of its bytes. */
  lemma RowsContentAddressed(y: System, p: RequestId, i: nat)
    requires Reachable(y) && p in y.rows && i < |y.rows[p]| && y.rows[p][i].sha256.Some?
    ensures y.rows[p][i].cid == CidOf(y.rows[p][i].sha256.value)
  {
    ReachableInv(y);
    assert RowOk(y, y.rows[p][i]);
  }

  // ---- the three ways in which it happens ----

  lemma {:induction false} RunsSnoc(x: System, es: seq<Event>, y: System, e: Event)
    requires Runs(x, es, y) && Enabled(y, e)
    ensures Runs(x, es + [e], Apply(y, e))
    decreases es
  {
    if es == [] {
      assert ([e])[1..] == [];
    } else {
      RunsSnoc(Apply(x, es[0]), es[1..], y, e);
      assert (es + [e])[1..] == es[1..] + [e];
    }
  }

  lemma Go(x: System, e: Event)
    requires Reachable(x) && Enabled(x, e)
    ensures Reachable(Apply(x, e))
  {
    var es :| Runs(EMPTY, es, x);
    RunsSnoc(EMPTY, es, x, e);
  }

  const YES := Oracle(true, true, 0, map[])
  const NO := Oracle(false, true, 0, map[])

  /** A step that only moves the call on. */
  lemma Moves(x: System, k: RequestId, c: Call, o: Oracle, c': Call)
    requires Reachable(x.(calls := x.calls[k := c])) && Enabled(x.(calls := x.calls[k := c]), Step(k, o))
    requires Advance(x.(calls := x.calls[k := c]), k, o) == x.(calls := x.calls[k := c'])
    ensures Reachable(x.(calls := x.calls[k := c']))
  {
    Go(x.(calls := x.calls[k := c]), Step(k, o));
  }

  /** A request begins and looks its one photo up. */
  lemma LooksUp(x: System, k: RequestId, h: Hash, found: map<Hash, Cid>)
    requires Reachable(x) && k !in x.used && LookupOk(x.rows, [h], found)
    ensures Reachable(x.(used := x.used + {k},
                         calls := x.calls[k := Uploading([h], found, if h in found then {} else {0}, [], false)]))
  {
    var x1 := x.(used := x.used + {k});
    Go(x, Begin(k, [h]));
    assert Fresh([h], found, 1) == (if h in found then {} else {0}) by { assert Fresh([h], found, 0) == {}; }
    Moves(x1, k, Looking([h]), Oracle(true, true, 0, found),
          Uploading([h], found, if h in found then {} else {0}, [], false));
  }

  /** It uploads the photo. */
  lemma Stores(x: System, k: RequestId, h: Hash, none: map<Hash, Cid>)
    requires none == map[] && Reachable(x.(calls := x.calls[k := Uploading([h], none, {0}, [], false)]))
    ensures Reachable(x.(stored := x.stored + {CidOf(h)},
                         calls := x.calls[k := Uploading([h], none, {}, [CidOf(h)], false)]))
  {
    var x1 := x.(calls := x.calls[k := Uploading([h], none, {0}, [], false)]);
    Go(x1, Step(k, YES));
    assert {0} - {0} == {} && [] + [CidOf(h)] == [CidOf(h)];
    assert x1.calls[k := Uploading([h], none, {}, [CidOf(h)], false)]
           == x.calls[k := Uploading([h], none, {}, [CidOf(h)], false)];
  }

  /** A request uploads one photo that no row owns yet, and is about to commit. */
  lemma Uploads(x: System, k: RequestId, h: Hash)
    requires Reachable(x) && k !in x.used && h !in OwnedHashes(x.rows)
    ensures Reachable(x.(stored := x.stored + {CidOf(h)}, used := x.used + {k},
                         calls := x.calls[k := Committing([h], map[], [CidOf(h)])]))
  {
    var none: map<Hash, Cid> := map[];
    LooksUp(x, k, h, none);
    Stores(x.(used := x.used + {k}), k, h, none);
    var x1 := x.(stored := x.stored + {CidOf(h)}, used := x.used + {k});
    Moves(x1, k, Uploading([h], none, {}, [CidOf(h)], false), YES, Committing([h], none, [CidOf(h)]));
  }

  /** A failing request deletes the one CID it has uploaded. */
  lemma CleansUp(x: System, k: RequestId, c: Cid)
    requires Reachable(x.(calls := x.calls[k := Cleaning([c], [c])])) && k !in x.calls
    ensures Reachable(x.(removed := x.removed + {c}, stored := x.stored - {c},
        ended := x.ended[k := Ended(false, [c])]))
  {
    var x1 := x.(calls := x.calls[k := Cleaning([c], [c])]);
    Go(x1, Step(k, YES));
    var x2 := x.(removed := x.removed + {c}, stored := x.stored - {c}, calls := x.calls[k := Cleaning([c], [])]);
    assert [c][..0] + [c][1..] == [];
    assert Apply(x1, Step(k, YES)) == x2;
    Go(x2, Step(k, YES));
    assert x2.calls - {k} == x.calls;
  }

  ghost predicate LosesPhoto(y: System, p: RequestId) {
    && p in y.ended && y.ended[p].ok && p in y.rows && |y.rows[p]| == 1
    && y.rows[p][0].cid !in y.stored
  }

  const PHOTO: Hash := 0
  const OWNED: seq<PhotoRow> := [PhotoRow(CidOf(0), Some(0))]
  const REUSED: seq<PhotoRow> := [PhotoRow(CidOf(0), None)]

  /** Two requests have both uploaded the same new bytes, and both are about to commit. */
  function BothUploaded(): System {
    System(map[], {CidOf(0)}, {},
           map[][0 := Committing([0], map[], [CidOf(0)])][1 := Committing([0], map[], [CidOf(0)])],
           map[], map[], {0, 1})
  }

  lemma BothUpload()
    ensures Reachable(BothUploaded())
  {
    var c := CidOf(0);
    assert Runs(EMPTY, [], EMPTY);
    Uploads(EMPTY, 0, 0);
    var x1 := EMPTY.(stored := {c}, used := {0}, calls := map[][0 := Committing([0], map[], [c])]);
    assert EMPTY.stored + {c} == {c} && EMPTY.used + {0} == {0};
    Uploads(x1, 1, 0);
    assert x1.stored + {c} == x1.stored && {0} + {1} == {0, 1};
  }

  /** Request k commits the new bytes it has uploaded and is answered 201. */
  lemma CommitsOwn(x: System, k: RequestId)
    requires k !in x.calls && x.rows == map[]
    requires Reachable(x.(calls := x.calls[k := Committing([0], map[], [CidOf(0)])]))
    ensures Reachable(x.(rows := map[k := OWNED], ended := x.ended[k := Ended(true, [CidOf(0)])]))
  {
    var x1 := x.(calls := x.calls[k := Committing([0], map[], [CidOf(0)])]);
    assert RowsFor([0], map[]) == OWNED;
    Go(x1, Step(k, YES));
    var x2 := x.(rows := map[k := OWNED], calls := x.calls[k := Enqueueing([CidOf(0)])]);
    assert x1.calls[k := Enqueueing([CidOf(0)])] == x2.calls;
    assert x.rows[k := OWNED] == x2.rows;
    assert Apply(x1, Step(k, YES)) == x2;
    Go(x2, Step(k, YES));
    assert x2.calls - {k} == x.calls;
  }

  /**
   * Two requests upload the same new bytes; the loser of the unique key deletes what the winner was answered 201
   * for.
   */
  lemma ConcurrentUploadLoses()
    ensures exists y: System :: Reachable(y) && LosesPhoto(y, 0)
  {
    var c := CidOf(0);
    var last: map<RequestId, Call> := map[][1 := Committing([0], map[], [c])];
    BothUpload();
    var x := BothUploaded().(calls := last);
    assert BothUploaded().calls == last[0 := Committing([0], map[], [c])];
    CommitsOwn(x, 0);
    LoserDeletes(x.(rows := map[0 := OWNED], ended := x.ended[0 := Ended(true, [c])]));
  }

  lemma LoserDeletes(x: System)
    requires Reachable(x) && x.calls == map[][1 := Committing([0], map[], [CidOf(0)])]
    requires x.rows == map[0 := OWNED] && 0 in x.ended && x.ended[0].ok
    ensures exists y: System :: Reachable(y) && LosesPhoto(y, 0)
  {
    var c := CidOf(0);
    var none: map<RequestId, Call> := map[];
    var x1 := x.(calls := none);
    assert 0 in OwnedHashes(x.rows) by { assert x.rows[0][0].sha256 == Some(0); }
    assert RowsFor([0], map[]) == OWNED;
    assert x.calls == none[1 := Committing([0], map[], [c])];
    Moves(x1, 1, Committing([0], map[], [c]), YES, Cleaning([c], [c]));
    CleansUp(x1, 1, c);
    assert LosesPhoto(x1.(removed := x1.removed + {c}, stored := x1.stored - {c},
        ended := x1.ended[1 := Ended(false, [c])]), 0);
  }

  /** One of them fails and cleans up first; the other then commits a photo that is already gone. */
  lemma LateCommitLoses()
    ensures exists y: System :: Reachable(y) && LosesPhoto(y, 1)
  {
    var c := CidOf(0);
    var last: map<RequestId, Call> := map[][1 := Committing([0], map[], [c])];
    BothUpload();
    var x := BothUploaded().(calls := last);
    assert BothUploaded().calls == last[0 := Committing([0], map[], [c])];
    Moves(x, 0, Committing([0], map[], [c]), NO, Cleaning([c], [c]));
    CleansUp(x, 0, c);
    var none: map<RequestId, Call> := map[];
    var x1 := x.(removed := x.removed + {c}, stored := x.stored - {c},
                 ended := x.ended[0 := Ended(false, [c])], calls := none);
    assert none[1 := Committing([0], map[], [c])] == last;
    CommitsOwn(x1, 1);
    assert LosesPhoto(x1.(rows := map[1 := OWNED], ended := x1.ended[1 := Ended(true, [c])]), 1);
  }

  /** Request 0 has committed its photo and is about to enqueue. */
  function CommittedOnce(): System {
    System(map[0 := OWNED], {CidOf(0)}, {}, map[0 := Enqueueing([CidOf(0)])], map[], map[], {0})
  }

  lemma CommitsOnce()
    ensures Reachable(CommittedOnce())
  {
    var c := CidOf(0);
    assert Runs(EMPTY, [], EMPTY);
    Uploads(EMPTY, 0, 0);
    var x1 := EMPTY.(stored := {c}, used := {0}, calls := map[0 := Committing([0], map[], [c])]);
    assert EMPTY.stored + {c} == {c} && EMPTY.used + {0} == {0};
    assert RowsFor([0], map[]) == OWNED;
    Go(x1, Step(0, YES));
    assert Apply(x1, Step(0, YES)) == CommittedOnce();
  }

  /** The first submitter's enqueue fails: its proof is rolled back and its clean-up deletes the photo. */
  lemma RollsBack(x: System)
    requires 0 !in x.calls && Reachable(x.(calls := x.calls[0 := Enqueueing([CidOf(0)])]))
    ensures Reachable(x.(rows := x.rows - {0}, removed := x.removed + {CidOf(0)}, stored := x.stored - {CidOf(0)},
                         ended := x.ended[0 := Ended(false, [CidOf(0)])]))
  {
    var c := CidOf(0);
    Moves(x, 0, Enqueueing([c]), NO, RollingBack([c]));
    var x1 := x.(calls := x.calls[0 := RollingBack([c])]);
    Go(x1, Step(0, YES));
    var x2 := x.(rows := x.rows - {0});
    assert x1.calls[0 := Cleaning([c], [c])] == x.calls[0 := Cleaning([c], [c])];
    assert Apply(x1, Step(0, YES)) == x2.(calls := x2.calls[0 := Cleaning([c], [c])]);
    CleansUp(x2, 0, c);
  }

  /** A request commits the row of a photo it has found, and is answered 201. */
  lemma CommitsReused(x: System, k: RequestId, found: map<Hash, Cid>)
    requires found == map[0 := CidOf(0)] && k !in x.calls
    requires Reachable(x.(calls := x.calls[k := Committing([0], found, [])]))
    ensures Reachable(x.(rows := x.rows[k := REUSED], ended := x.ended[k := Ended(true, [])]))
  {
    var x1 := x.(calls := x.calls[k := Committing([0], found, [])]);
    assert RowsFor([0], found) == REUSED;
    Go(x1, Step(k, YES));
    var x2 := x.(rows := x.rows[k := REUSED], calls := x.calls[k := Enqueueing([])]);
    assert x1.calls[k := Enqueueing([])] == x2.calls;
    assert Apply(x1, Step(k, YES)) == x2;
    Go(x2, Step(k, YES));
    assert x2.calls - {k} == x.calls;
  }

  /** A request finds the photo of request 0 committed, reuses it and is answered 201. */
  lemma Reuses()
    ensures Reachable(CommittedOnce().(rows := CommittedOnce().rows[1 := REUSED], used := {0} + {1},
                                       ended := CommittedOnce().ended[1 := Ended(true, [])]))
  {
    var found: map<Hash, Cid> := map[0 := CidOf(0)];
    var x := CommittedOnce();
    CommitsOnce();
    assert Owns(x.rows, 0, CidOf(0)) by { assert x.rows[0][0] == PhotoRow(CidOf(0), Some(0)); }
    LooksUp(x, 1, 0, found);
    var x1 := x.(used := {0} + {1});
    Moves(x1, 1, Uploading([0], found, {}, [], false), YES, Committing([0], found, []));
    CommitsReused(x1, 1, found);
  }

  /**
   * A request reuses a committed photo; the first submitter's enqueue then fails, and its clean-up deletes the
   * photo.
   */
  lemma ReusedPhotoLoses()
    ensures exists y: System :: Reachable(y) && LosesPhoto(y, 1)
  {
    Reuses();
    var none: map<RequestId, Call> := map[];
    var x := CommittedOnce().(rows := CommittedOnce().rows[1 := REUSED], used := {0} + {1},
                              ended := CommittedOnce().ended[1 := Ended(true, [])], calls := none);
    assert none[0 := Enqueueing([CidOf(0)])] == CommittedOnce().calls;
    RollsBack(x);
    assert LosesPhoto(x.(rows := x.rows - {0}, removed := x.removed + {CidOf(0)}, stored := x.stored - {CidOf(0)},
                         ended := x.ended[0 := Ended(false, [CidOf(0)])]), 1);
  }
}
