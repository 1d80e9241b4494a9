/** The archiver's commit protocol: every data object, then the manifest, then the index, each
    write atomic, the process free to die before any of them. A run is complete exactly when its
    index object exists, and an attempt resumes what an earlier one left. */
module Archive {
  import opened Options
  import opened Sealing

  /** The store's keys for one host. A data key carries the compressed suffix, so it is never a
      manifest key. */
  datatype Key = DataKey(run: nat, name: Name) | ManifestKey(run: nat) | IndexKey(run: nat)

  datatype Name = Name(text: string)

  datatype Blob = Blob(bytes: seq<int>)

  /** One file's line in the manifest and in the progress file. A digest identifies its blob. */
  datatype Entry = Entry(name: Name, key: Key, storedBytes: nat, storedSha: Blob, etag: int)

  /** `stamp` stands for what differs between attempts: the upload time and the catalog. */
  datatype Manifest = Manifest(run: nat, stamp: int, files: seq<Entry>)

  datatype Body = File(blob: Blob) | Doc(manifest: Manifest)

  datatype Obj = Obj(body: Body, etag: int)

  type Bucket = map<Key, Obj>

  type Progress = map<nat, map<Name, Entry>>

  /** What an attempt meets outside the store. `budget`: how many files are done before the time
      budget is gone, None when it never is. */
  datatype Attempt = Attempt(eligible: bool, roomy: bool, dryRun: bool, stamp: int, budget: Option<nat>)

  predicate NothingInTheWay(at: Attempt) { at.eligible && at.roomy && at.budget.None? }

  predicate Uninterrupted(at: Attempt) { NothingInTheWay(at) && !at.dryRun }

  /** The first `k` files are among `names`. */
  predicate AllIn(files: seq<Name>, k: nat, names: set<Name>) {
    k <= |files| && forall i :: 0 <= i < k ==> files[i] in names
  }

  lemma AllInGrows(files: seq<Name>, k: nat, names: set<Name>, more: set<Name>)
    requires AllIn(files, k, names) && names <= more && k < |files| && files[k] in more
    ensures AllIn(files, k + 1, more)
  {
  }

  datatype Outcome = Complete | AlreadyComplete | Resumed | Refused | NoSpace | Dry | BudgetOut | Failed | Crashed

  // -- verify ------------------------------------------------------------

  function Size(b: Bucket, k: Key): Option<nat> {
    if k in b && b[k].body.File? then Some(|b[k].body.blob.bytes|) else None
  }

  /** One entry as `_verify_manifest` checks it: present, of the recorded size, and with the
      recorded tag when both sides have one (0 is no tag). */
  predicate EntryOk(b: Bucket, e: Entry) {
    && Size(b, e.key) == Some(e.storedBytes)
    && (e.etag != 0 && b[e.key].etag != 0 ==> b[e.key].etag == e.etag)
  }

  /** `verify`: an index with the manifest's bytes, and every listed file in place. */
  predicate Verified(b: Bucket, run: nat) {
    && IndexKey(run) in b && ManifestKey(run) in b
    && b[IndexKey(run)].body == b[ManifestKey(run)].body
    && b[ManifestKey(run)].body.Doc?
    && forall e :: e in b[ManifestKey(run)].body.manifest.files ==> EntryOk(b, e)
  }

  /** `verify --deep`: the stored bytes also have the recorded digest. */
  predicate DeepVerified(b: Bucket, run: nat) {
    && Verified(b, run)
    && forall e :: e in b[ManifestKey(run)].body.manifest.files ==>
                     b[e.key].body == File(e.storedSha)
  }

  // -- the invariant -----------------------------------------------------

  ghost predicate Stored(b: Bucket, e: Entry) {
    Size(b, e.key) == Some(e.storedBytes) && b[e.key].etag == e.etag
  }

  ghost predicate Typed(b: Bucket) {
    forall k :: k in b ==> (k.DataKey? <==> b[k].body.File?)
  }

  /** A manifest in the bucket implies every file it lists is stored at its recorded size. */
  ghost predicate ManifestsHold(b: Bucket) {
    forall r, e :: ManifestKey(r) in b && b[ManifestKey(r)].body.Doc?
                   && e in b[ManifestKey(r)].body.manifest.files ==>
                     e.key.DataKey? && e.key.run == r && Stored(b, e)
  }

  /** An index implies a manifest with identical bytes. */
  ghost predicate IndexesHold(b: Bucket) {
    forall r :: IndexKey(r) in b ==>
                  ManifestKey(r) in b && b[IndexKey(r)].body == b[ManifestKey(r)].body
  }

  ghost predicate RecordsHold(b: Bucket, p: Progress) {
    forall r, n :: r in p && n in p[r] ==>
                     p[r][n].name == n && p[r][n].key == DataKey(r, n) && Stored(b, p[r][n])
  }

  ghost predicate Inv(b: Bucket, p: Progress) {
    Typed(b) && ManifestsHold(b) && IndexesHold(b) && RecordsHold(b, p)
  }

  /** The invariant is what readers rely on: an index is enough for `verify` to succeed. */
  lemma IndexIsTruth(b: Bucket, p: Progress, run: nat)
    requires Inv(b, p)
    ensures Verified(b, run) <==> IndexKey(run) in b
  {
    if IndexKey(run) in b {
      assert b[ManifestKey(run)].body.Doc?;
      forall e | e in b[ManifestKey(run)].body.manifest.files
        ensures EntryOk(b, e)
      {
        assert Stored(b, e);
      }
    }
  }

  /** A manifest without an index can always be finished: its check passes. */
  lemma ResumeNeverStuck(b: Bucket, p: Progress, run: nat)
    requires Inv(b, p) && ManifestKey(run) in b
    ensures b[ManifestKey(run)].body.Doc?
    ensures forall e :: e in b[ManifestKey(run)].body.manifest.files ==> EntryOk(b, e)
  {
    assert b[ManifestKey(run)].body.Doc?;
    forall e | e in b[ManifestKey(run)].body.manifest.files
      ensures EntryOk(b, e)
    {
      assert Stored(b, e);
    }
  }

  /** What `verify` notices of an archived run: an object lost, and one of another size or, where both are
      known, another tag. What it misses is exactly a replacement alike in both. */
  lemma DamageNoticed(b: Bucket, p: Progress, run: nat, e: Entry, o: Obj)
    requires Inv(b, p) && IndexKey(run) in b && ManifestKey(run) in b && b[ManifestKey(run)].body.Doc?
    requires e in b[ManifestKey(run)].body.manifest.files && o.body.File?
    ensures !Verified(b - {e.key}, run)
    ensures Verified(b[e.key := o], run) ==> Alike(o, e)
    ensures Alike(o, e) && OneEntry(b[ManifestKey(run)].body.manifest, e) ==> Verified(b[e.key := o], run)
    ensures DeepVerified(b[e.key := o], run) ==> o.body == File(e.storedSha)
  {
    var m := b[ManifestKey(run)].body.manifest;
    assert e.key.DataKey? && Stored(b, e);
    if Alike(o, e) && OneEntry(m, e) {
      forall f | f in m.files
        ensures EntryOk(b[e.key := o], f)
      {
        assert Stored(b, f);
      }
    }
  }

  /** The object has the recorded size and, where both tags are known, the recorded tag. */
  ghost predicate Alike(o: Obj, e: Entry)
    requires o.body.File?
  {
    |o.body.blob.bytes| == e.storedBytes && (e.etag == 0 || o.etag == 0 || o.etag == e.etag)
  }

  /** The manifest lists the entry's object under no other entry. */
  ghost predicate OneEntry(m: Manifest, e: Entry) { forall f :: f in m.files && f.key == e.key ==> f == e }

  // -- what each write keeps ---------------------------------------------

  /** A data object may be written while its run has no manifest and its name no record. */
  lemma PutDataKeeps(b: Bucket, p: Progress, r: nat, n: Name, o: Obj)
    requires Inv(b, p) && o.body.File? && ManifestKey(r) !in b && !(r in p && n in p[r])
    ensures Inv(b[DataKey(r, n) := o], p)
  {
    var c := b[DataKey(r, n) := o];
    forall q, e | ManifestKey(q) in c && c[ManifestKey(q)].body.Doc? && e in c[ManifestKey(q)].body.manifest.files
      ensures e.key.DataKey? && e.key.run == q && Stored(c, e)
    {
      assert Stored(b, e);
    }
    forall q, m | q in p && m in p[q]
      ensures p[q][m].name == m && p[q][m].key == DataKey(q, m) && Stored(c, p[q][m])
    {
      assert Stored(b, p[q][m]);
    }
  }

  lemma RecordKeeps(b: Bucket, p: Progress, r: nat, e: Entry)
    requires Inv(b, p) && e.key == DataKey(r, e.name) && Stored(b, e)
    ensures Inv(b, p[r := Records(p, r)[e.name := e]])
  {
  }

  lemma PutDocKeeps(b: Bucket, p: Progress, r: nat, m: Manifest, tag: int)
    requires Inv(b, p) && ManifestKey(r) !in b
    requires forall e :: e in m.files ==> e.key.DataKey? && e.key.run == r && Stored(b, e)
    ensures Inv(b[ManifestKey(r) := Obj(Doc(m), tag)], p)
  {
    var c := b[ManifestKey(r) := Obj(Doc(m), tag)];
    forall q, e | ManifestKey(q) in c && c[ManifestKey(q)].body.Doc? && e in c[ManifestKey(q)].body.manifest.files
      ensures e.key.DataKey? && e.key.run == q && Stored(c, e)
    {
      assert Stored(b, e);
    }
  }

  lemma PutIndexKeeps(b: Bucket, p: Progress, r: nat, tag: int)
    requires Inv(b, p) && ManifestKey(r) in b
    ensures Inv(b[IndexKey(r) := Obj(b[ManifestKey(r)].body, tag)], p)
  {
    var c := b[IndexKey(r) := Obj(b[ManifestKey(r)].body, tag)];
    forall q, e | ManifestKey(q) in c && c[ManifestKey(q)].body.Doc? && e in c[ManifestKey(q)].body.manifest.files
      ensures e.key.DataKey? && e.key.run == q && Stored(c, e)
    {
      assert Stored(b, e);
    }
  }

  function Records(p: Progress, r: nat): map<Name, Entry> {
    if r in p then p[r] else map[]
  }

  /** The manifest of the recorded files, in file order. */
  function ManifestOf(run: nat, stamp: int, files: seq<Name>, records: map<Name, Entry>): Manifest
    requires AllIn(files, |files|, records.Keys)
  {
    Manifest(run, stamp, seq(|files|, i requires 0 <= i < |files| => records[files[i]]))
  }

  lemma ManifestListsRecords(b: Bucket, p: Progress, run: nat, stamp: int, files: seq<Name>)
    requires Inv(b, p) && AllIn(files, |files|, Records(p, run).Keys)
    ensures Names(ManifestOf(run, stamp, files, Records(p, run))) == files
    ensures forall e :: e in ManifestOf(run, stamp, files, Records(p, run)).files ==>
                          && e.name in Records(p, run) && e == Records(p, run)[e.name]
                          && e.key.DataKey? && e.key.run == run && Stored(b, e)
  {
    var m := ManifestOf(run, stamp, files, Records(p, run));
    forall e | e in m.files
      ensures e.name in Records(p, run) && e == Records(p, run)[e.name]
      ensures e.key.DataKey? && e.key.run == run && Stored(b, e)
    {
      var i :| 0 <= i < |m.files| && m.files[i] == e;
      assert e == p[run][files[i]];
    }
  }

  /** The file names a manifest lists. */
  function Names(m: Manifest): seq<Name> {
    seq(|m.files|, i requires 0 <= i < |m.files| => m.files[i].name)
  }

  /** A manifest all of whose files are in place. */
  ghost predicate Finishable(b: Bucket, run: nat) {
    && ManifestKey(run) in b && b[ManifestKey(run)].body.Doc?
    && forall e :: e in b[ManifestKey(run)].body.manifest.files ==> EntryOk(b, e)
  }

  // -- one compressor ----------------------------------------------------

  /** Everything of the run in the bucket, in the progress file and in the manifest came from one
      compression of its files, and a manifest lists exactly those files in order. */
  ghost predicate FromBlobs(b: Bucket, p: Progress, r: nat, files: seq<Name>, blobs: map<Name, Blob>) {
    forall x: Seal {:trigger Opened(x)} :: OneCompression(b, p, r, files, blobs)
  }

  ghost predicate OneCompression(b: Bucket, p: Progress, r: nat, files: seq<Name>, blobs: map<Name, Blob>) {
    && (forall n :: DataKey(r, n) in b ==> n in blobs && b[DataKey(r, n)].body == File(blobs[n]))
    && (forall n :: n in Records(p, r) ==> n in blobs && Records(p, r)[n].storedSha == blobs[n])
    && (ManifestKey(r) in b && b[ManifestKey(r)].body.Doc? ==>
          Names(b[ManifestKey(r)].body.manifest) == files &&
          forall e :: e in b[ManifestKey(r)].body.manifest.files ==>
                        e.key == DataKey(r, e.name) && e.name in blobs && e.storedSha == blobs[e.name])
  }

  /** Once the index exists the archive holds the whole run: every file listed, every byte of it. */
  ghost predicate Archived(b: Bucket, run: nat, files: seq<Name>, blobs: map<Name, Blob>) {
    && DeepVerified(b, run)
    && Names(b[ManifestKey(run)].body.manifest) == files
    && forall n :: n in files ==> n in blobs && DataKey(run, n) in b && b[DataKey(run, n)].body == File(blobs[n])
  }

  lemma DeepIsTruth(b: Bucket, p: Progress, run: nat, files: seq<Name>, blobs: map<Name, Blob>)
    requires Inv(b, p) && FromBlobs(b, p, run, files, blobs) && IndexKey(run) in b
    ensures Archived(b, run, files, blobs)
  {
    IndexIsTruth(b, p, run);
    assert Opened(Seal);
    var m := b[ManifestKey(run)].body.manifest;
    forall n | n in files
      ensures n in blobs && DataKey(run, n) in b && b[DataKey(run, n)].body == File(blobs[n])
    {
      var i :| 0 <= i < |files| && files[i] == n;
      assert n == Names(m)[i] == m.files[i].name;
      assert EntryOk(b, m.files[i]);
    }
  }

  /** Only keys and records of run `r` differ. */
  ghost predicate OnlyRun(b: Bucket, p: Progress, c: Bucket, q: Progress, r: nat) {
    forall x: Seal {:trigger Opened(x)} :: Untouched(b, p, c, q, r)
  }

  ghost predicate Untouched(b: Bucket, p: Progress, c: Bucket, q: Progress, r: nat) {
    && (forall k: Key :: k.run != r ==> (k in b <==> k in c) && (k in b ==> b[k] == c[k]))
    && (forall s: nat :: s != r ==> (s in p <==> s in q) && (s in p ==> p[s] == q[s]))
  }

  lemma OnlyRunTrans(b: Bucket, p: Progress, c: Bucket, q: Progress, d: Bucket, o: Progress, r: nat)
    requires OnlyRun(b, p, c, q, r) && OnlyRun(c, q, d, o, r)
    ensures OnlyRun(b, p, d, o, r)
  {
    assert Opened(Seal);
  }

  /** Writing the run's documents keeps everything of it from one compression. */
  lemma DocsFromBlobs(b: Bucket, p: Progress, r: nat, m: Manifest, files: seq<Name>, blobs: map<Name, Blob>,
                      tag: int, tag2: int)
    requires Inv(b, p) && FromBlobs(b, p, r, files, blobs) && IndexKey(r) !in b && Names(m) == files
    requires forall e :: e in m.files ==> e.name in Records(p, r) && e == Records(p, r)[e.name]
    ensures var c := b[ManifestKey(r) := Obj(Doc(m), tag)];
            && FromBlobs(c, p, r, files, blobs)
            && FromBlobs(c[IndexKey(r) := Obj(Doc(m), tag2)], p, r, files, blobs)
            && FromBlobs(c[IndexKey(r) := Obj(Doc(m), tag2)], p - {r}, r, files, blobs)
  {
    assert Opened(Seal);
  }

  ghost predicate Sound(b: Bucket, p: Progress) {
    forall x: Seal {:trigger Opened(x)} :: Inv(b, p)
  }

  /** What holds of the old state and of one the commit of run `r` can leave. */
  ghost predicate Kept(b: Bucket, p: Progress, c: Bucket, q: Progress, r: nat,
                       files: seq<Name>, blobs: map<Name, Blob>)
  {
    && Sound(c, q) && OnlyRun(b, p, c, q, r)
    && (FromBlobs(b, p, r, files, blobs) ==> FromBlobs(c, q, r, files, blobs))
  }

  /** Uploading a file of a run that has no manifest, under a name that has no record. */
  lemma UploadKeeps(b: Bucket, p: Progress, r: nat, n: Name, etag: int, files: seq<Name>, blobs: map<Name, Blob>)
    requires Sound(b, p) && ManifestKey(r) !in b && n !in Records(p, r) && n in blobs
    ensures Kept(b, p, b, p, r, files, blobs)
    ensures Kept(b, p, b[DataKey(r, n) := Obj(File(blobs[n]), etag)], p, r, files, blobs)
  {
    assert Opened(Seal);
    PutDataKeeps(b, p, r, n, Obj(File(blobs[n]), etag));
  }

  /** Recording a stored file. */
  lemma RecordingKeeps(b: Bucket, p: Progress, r: nat, e: Entry, files: seq<Name>, blobs: map<Name, Blob>)
    requires Sound(b, p) && e.key == DataKey(r, e.name) && Stored(b, e)
    requires e.name in blobs && e.storedSha == blobs[e.name]
    ensures Kept(b, p, b, p, r, files, blobs)
    ensures Kept(b, p, b, p[r := Records(p, r)[e.name := e]], r, files, blobs)
  {
    assert Opened(Seal);
    RecordKeeps(b, p, r, e);
  }

  lemma KeptTrans(b: Bucket, p: Progress, c: Bucket, q: Progress, d: Bucket, o: Progress, r: nat,
                  files: seq<Name>, blobs: map<Name, Blob>)
    requires Kept(b, p, c, q, r, files, blobs) && Kept(c, q, d, o, r, files, blobs)
    ensures Kept(b, p, d, o, r, files, blobs)
  {
    OnlyRunTrans(b, p, c, q, d, o, r);
  }

  lemma UnchangedIsKept(b: Bucket, p: Progress, r: nat, files: seq<Name>, blobs: map<Name, Blob>)
    requires Sound(b, p)
    ensures Kept(b, p, b, p, r, files, blobs)
  {
    assert Opened(Seal);
  }

  /** A recorded file is stored at its recorded size. */
  lemma RecordedIsStored(b: Bucket, p: Progress, r: nat, n: Name)
    requires Sound(b, p)
    ensures n in Records(p, r) ==> Size(b, DataKey(r, n)) == Some(Records(p, r)[n].storedBytes)
  {
    assert Opened(Seal);
  }

  /** Every state the commit passes through: before, manifest, index, staging directory gone. */
  lemma CommitKeeps(b: Bucket, p: Progress, r: nat, stamp: int, files: seq<Name>, blobs: map<Name, Blob>,
                    tag: int, tag2: int)
    requires Sound(b, p) && ManifestKey(r) !in b && IndexKey(r) !in b
    requires AllIn(files, |files|, Records(p, r).Keys)
    ensures var m := ManifestOf(r, stamp, files, Records(p, r));
            var c := b[ManifestKey(r) := Obj(Doc(m), tag)];
            var d := c[IndexKey(r) := Obj(Doc(m), tag2)];
            && Kept(b, p, b, p, r, files, blobs) && Kept(b, p, c, p, r, files, blobs)
            && Kept(b, p, d, p, r, files, blobs) && Kept(b, p, d, p - {r}, r, files, blobs)
  {
    var m := ManifestOf(r, stamp, files, Records(p, r));
    assert Inv(b, p) by {
      assert Opened(Seal);
    }
    ManifestListsRecords(b, p, r, stamp, files);
    if FromBlobs(b, p, r, files, blobs) {
      DocsFromBlobs(b, p, r, m, files, blobs, tag, tag2);
    }
    PutDocKeeps(b, p, r, m, tag);
    var c := b[ManifestKey(r) := Obj(Doc(m), tag)];
    PutIndexKeeps(c, p, r, tag2);
    ForgetKeeps(c[IndexKey(r) := Obj(Doc(m), tag2)], p, r);
  }

  lemma ForgetKeeps(b: Bucket, p: Progress, r: nat)
    requires Inv(b, p)
    ensures Inv(b, p - {r})
  {
  }

  lemma ForgetFromBlobs(b: Bucket, p: Progress, r: nat, files: seq<Name>, blobs: map<Name, Blob>)
    ensures FromBlobs(b, p, r, files, blobs) ==> FromBlobs(b, p - {r}, r, files, blobs)
  {
    assert Opened(Seal);
  }

  lemma IndexedIsArchived(b: Bucket, p: Progress, r: nat, files: seq<Name>, blobs: map<Name, Blob>)
    requires Sound(b, p)
    ensures FromBlobs(b, p, r, files, blobs) && IndexKey(r) in b ==> Archived(b, r, files, blobs)
  {
    assert Inv(b, p) by {
      assert Opened(Seal);
    }
    if FromBlobs(b, p, r, files, blobs) && IndexKey(r) in b {
      DeepIsTruth(b, p, r, files, blobs);
    }
  }

  predicate Listed(runs: seq<nat>, files: map<nat, seq<Name>>, blobs: map<nat, map<Name, Blob>>) {
    forall r :: r in runs ==> r in files && r in blobs && AllIn(files[r], |files[r]|, blobs[r].Keys)
  }

  /** Enough writes for an uninterrupted sweep. */
  function Writes(runs: seq<nat>, files: map<nat, seq<Name>>, blobs: map<nat, map<Name, Blob>>): nat
    requires Listed(runs, files, blobs)
  {
    if runs == [] then 0 else 2 * |files[runs[0]]| + 3 + Writes(runs[1..], files, blobs)
  }

  /** Nothing differs but what belongs to the first `n` runs of the sweep. */
  ghost predicate OnlyRuns(b: Bucket, p: Progress, c: Bucket, q: Progress, runs: seq<nat>, n: nat) {
    forall x: Seal {:trigger Opened(x)} ::
      && n <= |runs|
      && (forall k: Key :: k.run !in runs[..n] ==> (k in b <==> k in c) && (k in b ==> b[k] == c[k]))
      && (forall s: nat :: s !in runs[..n] ==> (s in p <==> s in q) && (s in p ==> p[s] == q[s]))
  }

  lemma OnlyNone(b: Bucket, p: Progress, runs: seq<nat>)
    ensures OnlyRuns(b, p, b, p, runs, 0)
  {
  }

  lemma OnlyMore(b: Bucket, p: Progress, c: Bucket, q: Progress, runs: seq<nat>, n: nat)
    requires OnlyRuns(b, p, c, q, runs, n) && n < |runs|
    ensures OnlyRuns(b, p, c, q, runs, n + 1)
  {
    assert Opened(Seal);
    assert runs[..n + 1] == runs[..n] + [runs[n]];
  }

  lemma OnlyRunsStep(b: Bucket, p: Progress, c: Bucket, q: Progress, d: Bucket, o: Progress, runs: seq<nat>, n: nat)
    requires OnlyRuns(b, p, c, q, runs, n) && n < |runs| && OnlyRun(c, q, d, o, runs[n])
    ensures OnlyRuns(b, p, d, o, runs, n + 1)
  {
    assert Opened(Seal);
    assert runs[..n + 1] == runs[..n] + [runs[n]];
  }

  /** An attempt on one run leaves the others' indexes; and where it finds its own, that too. */
  lemma IndexesStay(b: Bucket, p: Progress, c: Bucket, q: Progress, r: nat)
    requires OnlyRun(b, p, c, q, r) && (IndexKey(r) in b ==> c == b)
    ensures forall s :: IndexKey(s) in b ==> IndexKey(s) in c
  {
    assert Opened(Seal);
    forall s | IndexKey(s) in b
      ensures IndexKey(s) in c
    {
      assert IndexKey(s).run == s;
    }
  }

  /** Every non-empty one of the first `n` runs has its index. */
  ghost predicate Indexed(b: Bucket, runs: seq<nat>, files: map<nat, seq<Name>>, n: nat) {
    forall x: Seal {:trigger Opened(x)} ::
      forall i :: 0 <= i < n && i < |runs| && runs[i] in files && files[runs[i]] != [] ==> IndexKey(runs[i]) in b
  }

  lemma IndexedStays(b: Bucket, c: Bucket, runs: seq<nat>, files: map<nat, seq<Name>>, n: nat)
    requires forall q :: IndexKey(q) in b ==> IndexKey(q) in c
    ensures Indexed(b, runs, files, n) ==> Indexed(c, runs, files, n)
  {
    assert Opened(Seal);
  }

  lemma IndexedOn(b: Bucket, runs: seq<nat>, files: map<nat, seq<Name>>, n: nat)
    requires n < |runs| && runs[n] in files
    ensures Indexed(b, runs, files, n) && (files[runs[n]] != [] ==> IndexKey(runs[n]) in b) ==>
              Indexed(b, runs, files, n + 1)
  {
    assert Opened(Seal);
  }

  lemma SweptAreVerified(b: Bucket, p: Progress, runs: seq<nat>, files: map<nat, seq<Name>>, n: nat)
    requires Sound(b, p) && n <= |runs| && forall r :: r in runs ==> r in files
    ensures Indexed(b, runs, files, n) ==> forall i :: 0 <= i < n && files[runs[i]] != [] ==> Verified(b, runs[i])
  {
    assert Opened(Seal);
    forall i | 0 <= i < n && files[runs[i]] != [] && IndexKey(runs[i]) in b
      ensures Verified(b, runs[i])
    {
      IndexIsTruth(b, p, runs[i]);
    }
  }

  /** Why an attempt on a run that is not archived cannot upload anything. */
  predicate CannotUpload(at: Attempt) { !at.eligible || !at.roomy || at.dryRun }

  /** Nothing in the attempt's way, and writes enough. */
  predicate Clear(at: Attempt, life: nat, files: seq<Name>) { Uninterrupted(at) && life >= 2 * |files| + 3 }

  predicate NoneEligible(attempts: seq<Attempt>) { forall at :: at in attempts ==> !at.eligible }

  predicate NoneUploads(attempts: seq<Attempt>) { forall at :: at in attempts ==> CannotUpload(at) }

  /** The budget is found spent after file `i`: that many files are done, this one was not recorded
      before, and files are left. */
  ghost predicate SpentAt(files: seq<Name>, recorded: set<Name>, budget: Option<nat>, i: int) {
    0 <= i && budget.Some? && budget.value <= i + 1 < |files| && files[i] !in recorded && files[i] !in files[..i]
  }

  ghost predicate NeverSpent(files: seq<Name>, recorded: set<Name>, budget: Option<nat>, n: nat) {
    forall i :: 0 <= i < n ==> !SpentAt(files, recorded, budget, i)
  }

  /** The budget is first found spent after file `i`, and exactly the files up to it have been recorded. */
  ghost predicate StoppedAfter(files: seq<Name>, recorded: set<Name>, now: set<Name>, budget: Option<nat>, i: nat) {
    && SpentAt(files, recorded, budget, i) && NeverSpent(files, recorded, budget, i)
    && now == recorded + NameSet(files[..i + 1])
  }

  ghost function NameSet(files: seq<Name>): set<Name> { set n | n in files }

  lemma NameSetSnoc(files: seq<Name>, k: nat)
    requires k < |files|
    ensures NameSet(files[..k + 1]) == NameSet(files[..k]) + {files[k]}
    ensures files[k] in files[..k] <==> files[k] in NameSet(files[..k])
  {
    assert files[..k + 1] == files[..k] + [files[k]];
  }

  /** Outside run `r` the same, and in it at most one more or rewritten data object and one more record. */
  ghost predicate OneFile(b: Bucket, p: Progress, c: Bucket, q: Progress, r: nat, n: Name, blob: Blob) {
    && (c == b || (DataKey(r, n) in c && c[DataKey(r, n)].body == File(blob)
                   && Size(b, DataKey(r, n)) != Some(|blob.bytes|)
                   && c == b[DataKey(r, n) := c[DataKey(r, n)]]))
    && (q == p || (n in Records(q, r) && q == p[r := Records(p, r)[n := Records(q, r)[n]]]
                   && Records(q, r)[n].storedSha == blob && Stored(c, Records(q, r)[n])
                   && Records(q, r)[n].key == DataKey(r, n) && Records(q, r)[n].storedBytes == |blob.bytes|))
  }

  // -- the archiver ------------------------------------------------------

  class Archiver {
    var bucket: Bucket
    var progress: Progress
    /** Writes the process still makes before it dies. */
    var fuel: nat

    ghost predicate Valid()
      reads this
    {
      Sound(bucket, progress)
    }

    /** The names the run's progress file records. */
    ghost function Recorded(run: nat): set<Name>
      reads this
    {
      Records(progress, run).Keys
    }

    constructor (lives: nat)
      ensures Valid() && bucket == map[] && progress == map[] && fuel == lives
    {
      bucket, progress, fuel := map[], map[], lives;
    }

    method Put(k: Key, o: Obj) returns (alive: bool)
      modifies this`bucket, this`fuel
      ensures alive <==> old(fuel) > 0
      ensures alive ==> bucket == old(bucket)[k := o] && fuel == old(fuel) - 1
      ensures !alive ==> bucket == old(bucket) && fuel == 0
    {
      alive := fuel > 0;
      if alive {
        bucket := bucket[k := o];
        fuel := fuel - 1;
      }
    }

    method WriteProgress(run: nat, e: Entry) returns (alive: bool)
      modifies this`progress, this`fuel
      ensures alive <==> old(fuel) > 0
      ensures alive ==>
                progress == old(progress)[run := Records(old(progress), run)[e.name := e]] && fuel == old(fuel) - 1
      ensures !alive ==> progress == old(progress) && fuel == 0
    {
      alive := fuel > 0;
      if alive {
        progress := progress[run := Records(progress, run)[e.name := e]];
        fuel := fuel - 1;
      }
    }

    /** One file: skipped when its record and its object agree, else compressed and, unless an
        object of that size is already there, uploaded; then recorded. */
    method PushFile(run: nat, name: Name, ghost files: seq<Name>, blobs: map<Name, Blob>)
      returns (alive: bool, uploaded: bool)
      requires name in blobs
      requires Valid() && ManifestKey(run) !in bucket && IndexKey(run) !in bucket
      modifies this
      ensures Valid() && ManifestKey(run) !in bucket && IndexKey(run) !in bucket
      ensures OnlyRun(old(bucket), old(progress), bucket, progress, run)
      ensures old(fuel) >= 2 ==> alive
      ensures fuel >= old(fuel) - 2
      ensures !alive ==> fuel == 0
      ensures Recorded(run) == old(Recorded(run)) + if alive then {name} else {}
      ensures uploaded <==> name !in Records(old(progress), run)
      ensures !uploaded ==> bucket == old(bucket) && progress == old(progress)
      ensures OneFile(old(bucket), old(progress), bucket, progress, run, name, blobs[name])
      ensures FromBlobs(old(bucket), old(progress), run, files, blobs) ==>
                FromBlobs(bucket, progress, run, files, blobs)
    {
      var blob := blobs[name];
      uploaded := false;
      var key := DataKey(run, name);
      var records := Records(progress, run);
      ghost var b, p := bucket, progress;
      RecordedIsStored(b, p, run, name);
      if name in records && Size(bucket, key) == Some(records[name].storedBytes) {
        UnchangedIsKept(b, p, run, files, blobs);
        return true, false;
      }
      uploaded := true;
      var etag: int := *;
      UploadKeeps(b, p, run, name, etag, files, blobs);
      if Size(bucket, key) == Some(|blob.bytes|) {
        etag := bucket[key].etag;
      } else {
        alive := Put(key, Obj(File(blob), etag));
        if !alive {
          return false, true;
        }
      }
      ghost var c := bucket;
      var entry := Entry(name, key, |blob.bytes|, blob, etag);
      RecordingKeeps(c, p, run, entry, files, blobs);
      alive := WriteProgress(run, entry);
      KeptTrans(b, p, c, p, bucket, progress, run, files, blobs);
    }

    /** The loop over the files, stopping between two of them when the budget is spent. */
    method PushFiles(run: nat, files: seq<Name>, blobs: map<Name, Blob>, budget: Option<nat>) returns (r: Outcome)
      requires AllIn(files, |files|, blobs.Keys)
      requires Valid() && ManifestKey(run) !in bucket && IndexKey(run) !in bucket
      modifies this
      ensures Valid() && ManifestKey(run) !in bucket && IndexKey(run) !in bucket
      ensures OnlyRun(old(bucket), old(progress), bucket, progress, run)
      ensures r in {Complete, BudgetOut, Crashed}
      ensures r == Complete ==> AllIn(files, |files|, Recorded(run))
      ensures r == Complete ==> NeverSpent(files, old(Recorded(run)), budget, |files|)
      ensures r == BudgetOut ==> exists i :: StoppedAfter(files, old(Recorded(run)), Recorded(run), budget, i)
      ensures r == Crashed ==> fuel == 0 && old(fuel) < 2 * |files|
      ensures fuel >= old(fuel) - 2 * |files|
      ensures FromBlobs(old(bucket), old(progress), run, files, blobs) ==>
                FromBlobs(bucket, progress, run, files, blobs)
    {
      var done := 0;
      while done < |files|
        invariant 0 <= done <= |files|
        invariant Valid() && ManifestKey(run) !in bucket && IndexKey(run) !in bucket
        invariant OnlyRun(old(bucket), old(progress), bucket, progress, run)
        invariant AllIn(files, done, Recorded(run))
        invariant Recorded(run) == old(Recorded(run)) + NameSet(files[..done])
        invariant NeverSpent(files, old(Recorded(run)), budget, done)
        invariant fuel >= old(fuel) - 2 * done
        invariant FromBlobs(old(bucket), old(progress), run, files, blobs) ==>
                    FromBlobs(bucket, progress, run, files, blobs)
      {
        ghost var b, p, rec := bucket, progress, Recorded(run);
        var alive, uploaded := PushFile(run, files[done], files, blobs);
        OnlyRunTrans(old(bucket), old(progress), b, p, bucket, progress, run);
        if !alive {
          return Crashed;
        }
        AllInGrows(files, done, rec, Recorded(run));
        NameSetSnoc(files, done);
        assert SpentAt(files, old(Recorded(run)), budget, done) <==>
               uploaded && budget.Some? && budget.value <= done + 1 < |files|;
        done := done + 1;
        if uploaded && budget.Some? && budget.value <= done < |files| {
          assert StoppedAfter(files, old(Recorded(run)), Recorded(run), budget, done - 1);
          return BudgetOut;
        }
      }
      return Complete;
    }

    /** The manifest, read back, then the index with the same bytes, then the staging directory. */
    method Commit(run: nat, files: seq<Name>, stamp: int, ghost blobs: map<Name, Blob>) returns (r: Outcome)
      requires Valid() && ManifestKey(run) !in bucket && IndexKey(run) !in bucket
      requires AllIn(files, |files|, Recorded(run))
      modifies this
      ensures Valid() && OnlyRun(old(bucket), old(progress), bucket, progress, run)
      ensures r in {Complete, Crashed}
      ensures r == Complete ==> IndexKey(run) in bucket && run !in progress
      ensures IndexKey(run) in bucket ==>
                && ManifestKey(run) in bucket && bucket[IndexKey(run)].body == bucket[ManifestKey(run)].body
                && bucket[ManifestKey(run)].body == Doc(ManifestOf(run, stamp, files, Records(old(progress), run)))
      ensures r == Crashed ==> fuel == 0 && old(fuel) < 3
      ensures fuel >= old(fuel) - 3
      ensures FromBlobs(old(bucket), old(progress), run, files, blobs) ==>
                FromBlobs(bucket, progress, run, files, blobs)
    {
      var m := ManifestOf(run, stamp, files, Records(progress, run));
      var tag: int := *;
      var tag2: int := *;
      CommitKeeps(bucket, progress, run, stamp, files, blobs, tag, tag2);
      var alive := Put(ManifestKey(run), Obj(Doc(m), tag));
      if !alive {
        return Crashed;
      }
      alive := Put(IndexKey(run), Obj(Doc(m), tag2));
      if !alive || fuel == 0 {
        return Crashed;
      }
      progress := progress - {run};
      fuel := fuel - 1;
      return Complete;
    }

    /** One attempt at one run. Whatever the crash point, the bucket keeps its promises; an attempt
        that is not cut short leaves a run `verify` accepts; a run with an index is never touched. An
        attempt that is refused, has no room or is dry writes nothing, and each outcome has its cause. */
    method PushRun(run: nat, files: seq<Name>, blobs: map<Name, Blob>, at: Attempt) returns (r: Outcome)
      requires Valid() && AllIn(files, |files|, blobs.Keys)
      modifies this
      ensures Valid() && OnlyRun(old(bucket), old(progress), bucket, progress, run)
      ensures r in {AlreadyComplete, Refused, NoSpace, Dry} ==> bucket == old(bucket) && progress == old(progress)
      ensures r == AlreadyComplete <==> IndexKey(run) in old(bucket)
      ensures r == Refused <==>
              IndexKey(run) !in old(bucket) && (!at.eligible || (ManifestKey(run) !in old(bucket) && files == []))
      ensures r in {NoSpace, Dry} <==>
              && IndexKey(run) !in old(bucket) && ManifestKey(run) !in old(bucket)
              && at.eligible && files != [] && (!at.roomy || at.dryRun)
      ensures r in {NoSpace, Dry} ==> (r == NoSpace <==> !at.roomy)
      ensures ManifestKey(run) in old(bucket) && IndexKey(run) !in old(bucket) && at.eligible ==>
                r == (if old(fuel) > 0 then Resumed else Crashed) && progress == old(progress)
      ensures r == Resumed ==> ManifestKey(run) in old(bucket)
      ensures r == Complete ==> NeverSpent(files, old(Recorded(run)), at.budget, |files|) && run !in progress
      ensures r == BudgetOut ==>
                && ManifestKey(run) !in bucket && IndexKey(run) !in bucket
                && exists i :: StoppedAfter(files, old(Recorded(run)), Recorded(run), at.budget, i)
      ensures r == Crashed ==> fuel == 0 && old(fuel) < 2 * |files| + 3
      ensures r in {Complete, AlreadyComplete, Resumed} ==> Verified(bucket, run)
      ensures old(fuel) >= 2 * |files| + 3 && Uninterrupted(at) && files != [] ==>
                r in {Complete, AlreadyComplete, Resumed}
      ensures old(fuel) > 0 && NothingInTheWay(at) && at.dryRun && files != [] ==>
                r in {AlreadyComplete, Resumed, Dry}
      ensures r != Failed && fuel >= old(fuel) - 2 * |files| - 3
      ensures FromBlobs(old(bucket), old(progress), run, files, blobs) ==>
                && FromBlobs(bucket, progress, run, files, blobs)
                && (r in {Complete, AlreadyComplete, Resumed} ==> Archived(bucket, run, files, blobs))
    {
      assert Opened(Seal);
      if IndexKey(run) in bucket {
        IndexIsTruth(bucket, progress, run);
        if FromBlobs(bucket, progress, run, files, blobs) {
          DeepIsTruth(bucket, progress, run, files, blobs);
        }
        return AlreadyComplete;
      }
      if !at.eligible {
        return Refused;
      }
      if ManifestKey(run) in bucket {
        r := Resume(run);
      } else if files == [] {
        return Refused;
      } else if !at.roomy {
        return NoSpace;
      } else if at.dryRun {
        return Dry;
      } else {
        r := PushFiles(run, files, blobs, at.budget);
        if r == Complete {
          ghost var b, p := bucket, progress;
          r := Commit(run, files, at.stamp, blobs);
          OnlyRunTrans(old(bucket), old(progress), b, p, bucket, progress, run);
        }
      }
      IndexIsTruth(bucket, progress, run);
      if IndexKey(run) in bucket && FromBlobs(bucket, progress, run, files, blobs) {
        DeepIsTruth(bucket, progress, run, files, blobs);
      }
    }

    /** A previous attempt died between the manifest and the index: check it and finish it. Whatever
        state the bucket is in, a manifest one of whose files is not in place gets no index; in a sound
        one that does not happen. */
    method Resume(run: nat) returns (r: Outcome)
      requires ManifestKey(run) in bucket && IndexKey(run) !in bucket
      modifies this
      ensures OnlyRun(old(bucket), old(progress), bucket, progress, run)
      ensures r == Failed <==> !Finishable(old(bucket), run)
      ensures r == Failed ==> bucket == old(bucket)
      ensures r != Failed ==> r == if old(fuel) > 0 then Resumed else Crashed
      ensures old(Valid()) ==> Valid() && r != Failed
      ensures r == Resumed ==>
                IndexKey(run) in bucket && bucket[IndexKey(run)].body == old(bucket)[ManifestKey(run)].body
      ensures forall k :: k != IndexKey(run) ==>
                            (k in bucket <==> k in old(bucket)) && (k in bucket ==> bucket[k] == old(bucket)[k])
      ensures progress == old(progress) && (r == Crashed ==> bucket == old(bucket))
      ensures r == Crashed ==> fuel == 0
      ensures fuel >= old(fuel) - 1
      ensures forall files, blobs ::
                FromBlobs(old(bucket), old(progress), run, files, blobs) ==>
                  FromBlobs(bucket, progress, run, files, blobs)
    {
      assert Opened(Seal);
      ghost var valid := Valid();
      if valid {
        ResumeNeverStuck(bucket, progress, run);
      }
      var body := bucket[ManifestKey(run)].body;
      if !body.Doc? {
        return Failed;
      }
      var ok := CheckManifest(body.manifest);
      if !ok {
        return Failed;
      }
      var tag: int := *;
      if valid {
        PutIndexKeeps(bucket, progress, run, tag);
      }
      var alive := Put(IndexKey(run), Obj(body, tag));
      return if alive then Resumed else Crashed;
    }

    /** `_verify_manifest` over the listed files. */
    method CheckManifest(m: Manifest) returns (ok: bool)
      ensures ok <==> forall e :: e in m.files ==> EntryOk(bucket, e)
    {
      for i := 0 to |m.files|
        invariant forall j :: 0 <= j < i ==> EntryOk(bucket, m.files[j])
      {
        if !EntryOk(bucket, m.files[i]) {
          return false;
        }
      }
      return true;
    }

    /** `verify`, the question retention asks before it deletes anything. */
    method Verify(run: nat) returns (ok: bool)
      ensures ok <==> Verified(bucket, run)
      ensures Valid() ==> (ok <==> IndexKey(run) in bucket)
    {
      assert Opened(Seal);
      if Valid() {
        IndexIsTruth(bucket, progress, run);
      }
      if IndexKey(run) !in bucket || ManifestKey(run) !in bucket {
        return false;
      }
      if bucket[IndexKey(run)].body != bucket[ManifestKey(run)].body || !bucket[ManifestKey(run)].body.Doc? {
        return false;
      }
      ok := CheckManifest(bucket[ManifestKey(run)].body.manifest);
    }

    /** The machine lost its staging directory between two attempts. */
    method LoseProgress(run: nat)
      requires Valid()
      modifies this`progress
      ensures Valid() && progress == old(progress) - {run}
    {
      assert Opened(Seal);
      progress := progress - {run};
    }

    /** One attempt of a campaign: it dies wherever it dies, and its progress file may not survive. */
    method Once(run: nat, files: seq<Name>, blobs: map<Name, Blob>, at: Attempt, life: nat, wipe: bool)
      requires Valid() && AllIn(files, |files|, blobs.Keys)
      modifies this
      ensures Valid() && OnlyRun(old(bucket), old(progress), bucket, progress, run)
      ensures IndexKey(run) in old(bucket) || !at.eligible ==>
                bucket == old(bucket) && (!wipe ==> progress == old(progress))
      ensures wipe ==> run !in progress
      ensures ManifestKey(run) !in old(bucket) && CannotUpload(at) ==> bucket == old(bucket)
      ensures files != [] && Uninterrupted(at) && life >= 2 * |files| + 3 ==> IndexKey(run) in bucket
      ensures FromBlobs(old(bucket), old(progress), run, files, blobs) ==>
                FromBlobs(bucket, progress, run, files, blobs)
    {
      fuel := life;
      var r := PushRun(run, files, blobs, at);
      assert Verified(bucket, run) ==> IndexKey(run) in bucket;
      if wipe {
        ghost var b, p := bucket, progress;
        LoseProgress(run);
        assert OnlyRun(b, p, bucket, progress, run);
        OnlyRunTrans(old(bucket), old(progress), b, p, bucket, progress, run);
        ForgetFromBlobs(b, p, run, files, blobs);
      }
    }

    /** Any campaign of attempts, each dying wherever it dies, with or without its progress file
        surviving: the invariant holds at the end, so it holds at every point a crash can expose. With
        one compression of the run, the index means the whole run is there, byte for byte. One attempt
        with nothing in its way archives the run; attempts none of which is eligible change nothing. */
    method Campaign(run: nat, files: seq<Name>, blobs: map<Name, Blob>, attempts: seq<Attempt>,
                    lives: seq<nat>, wiped: seq<bool>)
      requires Valid() && AllIn(files, |files|, blobs.Keys)
      requires |attempts| == |lives| == |wiped|
      modifies this
      ensures Valid() && OnlyRun(old(bucket), old(progress), bucket, progress, run)
      ensures IndexKey(run) in old(bucket) || NoneEligible(attempts) ==>
                bucket == old(bucket) && (true !in wiped ==> progress == old(progress))
      ensures ManifestKey(run) !in old(bucket) && NoneUploads(attempts) ==> bucket == old(bucket)
      ensures files != [] && (exists i :: 0 <= i < |attempts| && Clear(attempts[i], lives[i], files)) ==>
                IndexKey(run) in bucket
      ensures FromBlobs(old(bucket), old(progress), run, files, blobs) ==>
                && FromBlobs(bucket, progress, run, files, blobs)
                && (IndexKey(run) in bucket ==> Archived(bucket, run, files, blobs))
    {
      assert OnlyRun(bucket, progress, bucket, progress, run);
      for i := 0 to |attempts|
        invariant Valid() && OnlyRun(old(bucket), old(progress), bucket, progress, run)
        invariant IndexKey(run) in old(bucket) || NoneEligible(attempts) ==>
                    bucket == old(bucket) && (true !in wiped ==> progress == old(progress))
        invariant ManifestKey(run) !in old(bucket) && NoneUploads(attempts) ==> bucket == old(bucket)
        invariant files != [] && (exists j :: 0 <= j < i && Clear(attempts[j], lives[j], files)) ==>
                    IndexKey(run) in bucket
        invariant FromBlobs(old(bucket), old(progress), run, files, blobs) ==>
                    FromBlobs(bucket, progress, run, files, blobs)
      {
        ghost var b, p := bucket, progress;
        assert attempts[i] in attempts && wiped[i] in wiped;
        Once(run, files, blobs, attempts[i], lives[i], wiped[i]);
        OnlyRunTrans(old(bucket), old(progress), b, p, bucket, progress, run);
      }
      IndexedIsArchived(bucket, progress, run, files, blobs);
    }

    /** One run of the sweep; an empty directory is passed over. */
    method PushNext(run: nat, files: seq<Name>, blobs: map<Name, Blob>, at: Attempt) returns (ok: bool)
      requires Valid() && AllIn(files, |files|, blobs.Keys)
      modifies this
      ensures Valid() && OnlyRun(old(bucket), old(progress), bucket, progress, run)
      ensures forall q :: IndexKey(q) in old(bucket) ==> IndexKey(q) in bucket
      ensures ok && !at.dryRun && files != [] ==> IndexKey(run) in bucket
      ensures !at.eligible || files == [] ==> bucket == old(bucket) && progress == old(progress)
      ensures fuel >= old(fuel) - 2 * |files| - 3
      ensures NothingInTheWay(at) && old(fuel) >= 2 * |files| + 3 ==> ok
    {
      if files == [] {
        assert OnlyRun(bucket, progress, bucket, progress, run);
        return true;
      }
      ghost var b, p := bucket, progress;
      var r := PushRun(run, files, blobs, at);
      IndexesStay(b, p, bucket, progress, run);
      return r in {Complete, AlreadyComplete, Resumed, Dry};
    }

    /** The sweep over the closed runs, oldest first: an empty directory is passed over, any failure
        stops it, a dry run is carried to its end. Every non-empty run before the one it stopped at is
        verified or, dry, unpushed, and no run after that one is touched; it reaches its end whenever
        nothing cuts it short, and an ineligible one changes nothing. With a budget, `last` is the number of
        runs after which it is found spent. */
    method PushPending(runs: seq<nat>, files: map<nat, seq<Name>>, blobs: map<nat, map<Name, Blob>>, at: Attempt,
                       last: nat)
      returns (swept: bool, ghost stop: nat)
      requires Valid() && Listed(runs, files, blobs)
      modifies this
      ensures Valid() && stop <= |runs| && (swept <==> stop == |runs|)
      ensures at.budget.Some? ==> stop <= last
      ensures !at.dryRun ==> forall i :: 0 <= i < stop && files[runs[i]] != [] ==> Verified(bucket, runs[i])
      ensures OnlyRuns(old(bucket), old(progress), bucket, progress, runs, if swept then stop else stop + 1)
      ensures !at.eligible ==> bucket == old(bucket) && progress == old(progress)
      ensures NothingInTheWay(at) && old(fuel) >= Writes(runs, files, blobs) ==> swept
    {
      var i := 0;
      ghost var enough := fuel >= Writes(runs, files, blobs);
      assert runs[0..] == runs;
      OnlyNone(bucket, progress, runs);
      while i < |runs|
        invariant 0 <= i <= |runs| && Valid() && (at.budget.Some? ==> i <= last)
        invariant !at.dryRun ==> Indexed(bucket, runs, files, i)
        invariant OnlyRuns(old(bucket), old(progress), bucket, progress, runs, i)
        invariant !at.eligible ==> bucket == old(bucket) && progress == old(progress)
        invariant enough ==> fuel >= Writes(runs[i..], files, blobs)
      {
        if at.budget.Some? && last <= i {
          SweptAreVerified(bucket, progress, runs, files, i);
          OnlyMore(old(bucket), old(progress), bucket, progress, runs, i);
          return false, i;
        }
        var run := runs[i];
        assert runs[i..][0] == run && runs[i..][1..] == runs[i + 1..];
        ghost var b, p := bucket, progress;
        var ok := PushNext(run, files[run], blobs[run], at);
        IndexedStays(b, bucket, runs, files, i);
        OnlyRunsStep(old(bucket), old(progress), b, p, bucket, progress, runs, i);
        if !ok {
          SweptAreVerified(bucket, progress, runs, files, i);
          return false, i;
        }
        IndexedOn(bucket, runs, files, i);
        i := i + 1;
      }
      SweptAreVerified(bucket, progress, runs, files, i);
      return true, i;
    }
  }
}
