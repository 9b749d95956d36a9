/** Proof submission: photos go to IPFS before the database commits, and every failure must take them back. */
module Submission {
  import opened Common

  /** A photo's content, as its hash identifies it. */
  type Hash = nat

  /** Content addressing: a CID is determined by the bytes alone, and different bytes have different CIDs. */
  datatype Cid = CidOf(bytes: Hash)

  datatype Photo = Photo(sha256: Hash, uploadOk: bool)

  /** A stored photo row: a reused photo keeps its hash null. */
  datatype PhotoRow = PhotoRow(cid: Cid, sha256: Option<Hash>)

  datatype Eligibility = Eligible | Refused(code: nat) | EligibilityThrows

  /** Everything the request does not decide: lookups, uploads, the commit and the enqueue. */
  datatype Request = Request(
    bodyValid: bool,
    preflight: Eligibility,
    hashingOk: bool,
    photos: seq<Photo>,
    lookupOk: bool,
    existing: set<Hash>,         // hashes that a row owns when they are looked up, each with the CID of its bytes
    completion: seq<nat>,        // the order in which the uploads settle
    atCommit: Eligibility,
    owned: set<Hash>,            // hashes owned by other rows when the commit runs
    commitOk: bool,
    enqueueOk: bool,
    rollbackOk: bool)

  /** The answers of the eligibility check when it refuses. */
  const REFUSALS := {400, 403, 404, 409}

  predicate Sane(r: Request) {
    && |r.completion| == |r.photos|
    && (forall i :: 0 <= i < |r.completion| ==> r.completion[i] < |r.photos|)
    && (forall i, j :: 0 <= i < j < |r.completion| ==> r.completion[i] != r.completion[j])
    && (r.preflight.Refused? ==> r.preflight.code in REFUSALS)
    && (r.atCommit.Refused? ==> r.atCommit.code in REFUSALS)
  }

  predicate Reuses(r: Request, p: Photo) {
    p.sha256 in r.existing
  }

  /** The CIDs newly uploaded, in the order in which the uploads settle. */
  function NewCids(r: Request, order: seq<nat>): seq<Cid>
    requires forall i :: 0 <= i < |order| ==> order[i] < |r.photos|
  {
    if order == [] then []
    else
      var p := r.photos[order[|order| - 1]];
      var init := NewCids(r, order[..|order| - 1]);
      if !Reuses(r, p) && p.uploadOk then init + [CidOf(p.sha256)] else init
  }

  predicate Prepared(r: Request) {
    forall i :: 0 <= i < |r.photos| ==> Reuses(r, r.photos[i]) || r.photos[i].uploadOk
  }

  function RowOf(r: Request, p: Photo): PhotoRow {
    PhotoRow(CidOf(p.sha256), if Reuses(r, p) then None else Some(p.sha256))
  }

  function RowsOf(r: Request, photos: seq<Photo>): (rows: seq<PhotoRow>)
    ensures |rows| == |photos|
  {
    if photos == [] then []
    else RowsOf(r, photos[..|photos| - 1]) + [RowOf(r, photos[|photos| - 1])]
  }

  /** The unique key on sha256: no two rows of this proof, and no row already there, with the same hash. */
  predicate HashesFree(rows: seq<PhotoRow>, owned: set<Hash>) {
    && (forall i :: 0 <= i < |rows| && rows[i].sha256.Some? ==> rows[i].sha256.value !in owned)
    && (forall i, j :: 0 <= i < j < |rows| && rows[i].sha256.Some? ==> rows[i].sha256 != rows[j].sha256)
  }

  /** The request gets as far as uploading its photos. */
  predicate Uploads(r: Request) {
    r.bodyValid && r.preflight.Eligible? && r.hashingOk && (r.photos == [] || r.lookupOk)
  }

  /** The proof is committed exactly under this condition. */
  predicate Commits(r: Request) {
    && Uploads(r) && Prepared(r)
    && r.atCommit.Eligible? && r.commitOk && HashesFree(RowsOf(r, r.photos), r.owned)
  }

  /** The photos cannot be prepared: hashing, the lookup or an upload of bytes not seen before fails. */
  ghost predicate PhotosFail(r: Request) {
    || !r.hashingOk
    || (r.photos != [] && !r.lookupOk)
    || (exists i :: 0 <= i < |r.photos| && r.photos[i].sha256 !in r.existing && !r.photos[i].uploadOk)
  }

  /** The hash of a new photo is taken, by a row that is there or by another photo of the request. */
  ghost predicate HashTaken(r: Request) {
    || (exists i :: 0 <= i < |r.photos| && r.photos[i].sha256 !in r.existing && r.photos[i].sha256 in r.owned)
    || (exists i, j :: 0 <= i < j < |r.photos| && r.photos[i].sha256 == r.photos[j].sha256
                       && r.photos[i].sha256 !in r.existing)
  }

  lemma HashTakenIff(r: Request)
    ensures HashesFree(RowsOf(r, r.photos), r.owned) <==> !HashTaken(r)
  {
    var rows := RowsOf(r, r.photos);
    RowsLength(r, r.photos);
    if !HashesFree(rows, r.owned) {
      if i :| 0 <= i < |rows| && rows[i].sha256.Some? && rows[i].sha256.value in r.owned {
        assert r.photos[i].sha256 !in r.existing && r.photos[i].sha256 in r.owned;
      } else {
        var i, j :| 0 <= i < j < |rows| && rows[i].sha256.Some? && rows[i].sha256 == rows[j].sha256;
        assert r.photos[i].sha256 == r.photos[j].sha256 && r.photos[i].sha256 !in r.existing;
      }
    }
    if i :| 0 <= i < |r.photos| && r.photos[i].sha256 !in r.existing && r.photos[i].sha256 in r.owned {
      assert rows[i].sha256.Some? && rows[i].sha256.value in r.owned;
    }
    if i, j :| 0 <= i < j < |r.photos| && r.photos[i].sha256 == r.photos[j].sha256
               && r.photos[i].sha256 !in r.existing {
      assert rows[i].sha256.Some? && rows[i].sha256 == rows[j].sha256;
    }
  }

  /** When the proof is committed, in terms of what the request meets. */
  lemma CommitsIff(r: Request)
    ensures Commits(r) <==>
              && r.bodyValid && r.preflight.Eligible? && !PhotosFail(r)
              && r.atCommit.Eligible? && r.commitOk && !HashTaken(r)
  {
    HashTakenIff(r);
  }

  class SubmitProof {
    var uploadedCids: seq<Cid>
    var cidsCleaned: bool
    var removed: seq<Cid>              // delete calls made to IPFS
    var proof: Option<seq<PhotoRow>>   // the committed proof, if it is there

    constructor ()
      ensures uploadedCids == [] && !cidsCleaned && removed == [] && proof == None
    {
      uploadedCids, cidsCleaned, removed, proof := [], false, [], None;
    }

    method CleanupUploadedCids()
      modifies this`cidsCleaned, this`removed
      ensures cidsCleaned
      ensures removed == if old(cidsCleaned) then old(removed) else old(removed) + uploadedCids
    {
      if cidsCleaned { return; }
      cidsCleaned := true;
      var i := 0;
      while i < |uploadedCids|
        invariant 0 <= i <= |uploadedCids| && cidsCleaned
        invariant removed == old(removed) + uploadedCids[..i]
      {
        removed := removed + [uploadedCids[i]];
        i := i + 1;
      }
      assert uploadedCids[..i] == uploadedCids;
    }

    /** All uploads settle before any failure is looked at; a reused photo uploads nothing. */
    method UploadPhotos(r: Request) returns (ok: bool)
      requires Sane(r) && uploadedCids == []
      modifies this`uploadedCids
      ensures uploadedCids == NewCids(r, r.completion)
      ensures ok <==> Prepared(r)
    {
      var i := 0;
      ok := true;
      while i < |r.completion|
        invariant 0 <= i <= |r.completion|
        invariant uploadedCids == NewCids(r, r.completion[..i])
      {
        assert r.completion[..i + 1][..i] == r.completion[..i];
        var p := r.photos[r.completion[i]];
        if !Reuses(r, p) && p.uploadOk {
          uploadedCids := uploadedCids + [CidOf(p.sha256)];
        }
        i := i + 1;
      }
      assert r.completion[..i] == r.completion;
      i := 0;
      while i < |r.photos|
        invariant 0 <= i <= |r.photos|
        invariant ok <==> forall j :: 0 <= j < i ==> Reuses(r, r.photos[j]) || r.photos[j].uploadOk
      {
        if !Reuses(r, r.photos[i]) && !r.photos[i].uploadOk {
          ok := false;
        }
        i := i + 1;
      }
    }

    /**
     * Every new upload ends on a committed proof that was answered 201, or is taken back exactly once;
     * nothing else is ever removed. Only when the compensating delete of the proof fails does a proof stay behind
     * without its photos.
     */
    method Submit(r: Request) returns (status: nat)
      requires Sane(r) && uploadedCids == [] && !cidsCleaned && removed == [] && proof == None
      modifies this
      ensures status == 201 <==>
                && r.bodyValid && r.preflight.Eligible? && !PhotosFail(r)
                && r.atCommit.Eligible? && r.commitOk && !HashTaken(r) && r.enqueueOk
      ensures status == 500 <==>
                && r.bodyValid && !r.preflight.Refused?
                && (|| r.preflight.EligibilityThrows?
                    || PhotosFail(r)
                    || (!r.atCommit.Refused?
                        && (r.atCommit.EligibilityThrows? || !r.commitOk || HashTaken(r) || !r.enqueueOk)))
      ensures status < 400 ==> status == 201 && Commits(r) && r.enqueueOk
      ensures uploadedCids == if Uploads(r) then NewCids(r, r.completion) else []
      ensures status == 201 ==> removed == [] && proof == Some(RowsOf(r, r.photos))
      ensures proof.Some? ==>
                && |proof.value| == |r.photos|
                && forall i :: 0 <= i < |r.photos| ==>
                     proof.value[i] == PhotoRow(CidOf(r.photos[i].sha256),
                                                if r.photos[i].sha256 in r.existing then None
                                                else Some(r.photos[i].sha256))
      ensures status != 201 ==> removed == uploadedCids
      ensures !r.bodyValid ==> status == 400
      ensures r.bodyValid && r.preflight.Refused? ==> status == r.preflight.code
      ensures Uploads(r) && Prepared(r) && r.atCommit.Refused? ==> status == r.atCommit.code
      ensures status != 201 && proof.Some? <==> Commits(r) && !r.enqueueOk && !r.rollbackOk
    {
      CommitsIff(r);
      HashTakenIff(r);
      RowsLength(r, r.photos);
      if !r.bodyValid {
        return 400;
      }
      if !r.preflight.Eligible? {
        if r.preflight.Refused? { return r.preflight.code; }
        CleanupUploadedCids();
        return 500;
      }
      if !r.hashingOk || (r.photos != [] && !r.lookupOk) {
        CleanupUploadedCids();
        return 500;
      }
      var prepared := UploadPhotos(r);
      if !prepared {
        CleanupUploadedCids();
        return 500;
      }
      if r.atCommit.Refused? {
        CleanupUploadedCids();
        return r.atCommit.code;
      }
      var rows := RowsOf(r, r.photos);
      if r.atCommit.EligibilityThrows? || !r.commitOk || !HashesFree(rows, r.owned) {
        CleanupUploadedCids();
        return 500;
      }
      proof := Some(rows);
      if !r.enqueueOk {
        if r.rollbackOk {
          proof := None;
        }
        CleanupUploadedCids();
        CleanupUploadedCids();
        return 500;
      }
      status := 201;
    }
  }

  // ---- what the lists mean ----

  /** The photo at position `i` of the request is newly uploaded and has this CID. */
  predicate NewlyUploads(r: Request, i: nat, c: Cid)
    requires i < |r.photos|
  {
    !Reuses(r, r.photos[i]) && r.photos[i].uploadOk && c == CidOf(r.photos[i].sha256)
  }

  lemma {:induction false} NewCidsFrom(r: Request, order: seq<nat>, c: Cid)
    requires forall i :: 0 <= i < |order| ==> order[i] < |r.photos|
    ensures c in NewCids(r, order) <==> exists i :: 0 <= i < |order| && NewlyUploads(r, order[i], c)
  {
    if order != [] {
      var init := order[..|order| - 1];
      NewCidsFrom(r, init, c);
      if exists i :: 0 <= i < |init| && NewlyUploads(r, init[i], c) {
        var i :| 0 <= i < |init| && NewlyUploads(r, init[i], c);
        assert order[i] == init[i];
      }
      if exists i :: 0 <= i < |order| && NewlyUploads(r, order[i], c) {
        var i :| 0 <= i < |order| && NewlyUploads(r, order[i], c);
        if i < |init| { assert init[i] == order[i]; }
      }
    }
  }

  lemma RowsLength(r: Request, photos: seq<Photo>)
    ensures forall i :: 0 <= i < |photos| ==> RowsOf(r, photos)[i] == RowOf(r, photos[i])
  {
    if photos != [] {
      RowsLength(r, photos[..|photos| - 1]);
    }
  }

  /** A request never takes back the CID of a photo it reuses: every CID it uploads is of other bytes. */
  lemma ReusedNeverRemoved(r: Request, i: nat)
    requires Sane(r) && i < |r.photos| && Reuses(r, r.photos[i])
    ensures RowOf(r, r.photos[i]).cid !in NewCids(r, r.completion)
  {
    NewCidsFrom(r, r.completion, RowOf(r, r.photos[i]).cid);
  }

  /** A success puts every new CID on the proof. */
  lemma NewCidsAreStored(r: Request, c: Cid)
    requires Sane(r) && Prepared(r) && c in NewCids(r, r.completion)
    ensures exists k :: 0 <= k < |r.photos| && RowsOf(r, r.photos)[k] == PhotoRow(c, Some(r.photos[k].sha256))
  {
    NewCidsFrom(r, r.completion, c);
    RowsLength(r, r.photos);
    var i :| 0 <= i < |r.completion| && NewlyUploads(r, r.completion[i], c);
    var k := r.completion[i];
    assert RowsOf(r, r.photos)[k] == RowOf(r, r.photos[k]);
  }

  /** Two photos with the same new bytes in one request make it fail: their rows would share a unique hash. */
  lemma DuplicatePhotosFail(r: Request, i: nat, j: nat)
    requires i < j < |r.photos| && r.photos[i].sha256 == r.photos[j].sha256 && !Reuses(r, r.photos[i])
    ensures !Commits(r)
  {
    RowsLength(r, r.photos);
    assert RowsOf(r, r.photos)[i].sha256 == RowsOf(r, r.photos)[j].sha256;
  }
}
