/** The encrypted content-addressed image store (datalayer/storage.py).  Hash and cipher are
    abstract: `decrypt` undoes `encrypt` for every nonce, and collision-freedom is stated
    where it is used.  A path is the list of its components. */
module ImageStore {
  import opened Common

  newtype Byte = x: int | 0 <= x < 256
  type Bytes = seq<Byte>
  type Path = seq<string>

  datatype Crypto = Crypto(encrypt: (Bytes, Bytes) -> Bytes, decrypt: Bytes -> Option<Bytes>, hash: Bytes -> string) {
    ghost predicate Sound() { forall nonce, p :: decrypt(encrypt(nonce, p)) == Some(p) }

    /** No other content has the hash of this one. */
    ghost predicate Unshared(p: Bytes) { forall q :: hash(q) == hash(p) ==> q == p }
  }

  /** A reference: where, what it hashes to, how long it is. */
  datatype Uri = File(path: Path) | Remote(url: string)
  datatype StorageRef = StorageRef(uri: Uri, sha256: string, size: nat)

  datatype Result<T> = Ok(value: T) | EmptyRefused | EgressRefused | IntegrityError

  function Fan(sha: string): string { if |sha| <= 2 then sha else sha[..2] }

  function BlobPath(root: Path, sha: string): Path { root + [Fan(sha), sha + ".blob"] }

  function TmpPath(root: Path, sha: string): Path { root + [Fan(sha), sha + ".blob.tmp"] }

  /** Different hashes have different blobs, and no temporary file is a blob. */
  lemma PathsApart(root: Path, a: string, b: string)
    ensures BlobPath(root, a) == BlobPath(root, b) ==> a == b
    ensures BlobPath(root, a) != TmpPath(root, b)
  {
    var p, q, t := BlobPath(root, a), BlobPath(root, b), TmpPath(root, b);
    assert p[|root| + 1] == a + ".blob" && q[|root| + 1] == b + ".blob" && t[|root| + 1] == b + ".blob.tmp";
    SuffixesApart(a, b);
  }

  lemma SuffixesApart(a: string, b: string)
    ensures a + ".blob" == b + ".blob" ==> a == b
    ensures a + ".blob" != b + ".blob.tmp"
  {
    var x, y, z := a + ".blob", b + ".blob", b + ".blob.tmp";
    assert x[|x| - 1] == 'b' && z[|z| - 1] == 'p';
    if x == y {
      assert |a| == |b|;
      assert x[..|a|] == a && y[..|b|] == b;
    }
  }

  // ------------------------------------------------------------------- one call

  function RefOf(c: Crypto, root: Path, p: Bytes): StorageRef {
    StorageRef(File(BlobPath(root, c.hash(p))), c.hash(p), |p|)
  }

  /** The disk after `put`. */
  function Stored(c: Crypto, root: Path, disk: map<Path, Bytes>, p: Bytes, nonce: Bytes): map<Path, Bytes> {
    var sha := c.hash(p);
    if BlobPath(root, sha) in disk then disk
    else (disk - {TmpPath(root, sha)})[BlobPath(root, sha) := c.encrypt(nonce, p)]
  }

  /** `_resolve_local`. */
  predicate Local(root: Path, u: Uri) { u.File? && root <= u.path }

  /** `get`. */
  function Fetched(c: Crypto, root: Path, disk: map<Path, Bytes>, ref: StorageRef): Result<Bytes> {
    if !Local(root, ref.uri) then EgressRefused
    else if ref.uri.path !in disk then IntegrityError
    else
      match c.decrypt(disk[ref.uri.path])
      case None => IntegrityError
      case Some(b) => if |b| != ref.size || c.hash(b) != ref.sha256 then IntegrityError else Ok(b)
  }

  /** `get`, whatever is on the disk: it answers with bytes exactly when the reference is a file
      under the root, that file is there and decrypts to them, and they have the referenced
      length and hash.  A reference outside the root is refused as egress, everything else as
      an integrity error. */
  lemma GetIsFailClosed(c: Crypto, root: Path, disk: map<Path, Bytes>, ref: StorageRef, b: Bytes)
    ensures var r := Fetched(c, root, disk, ref);
            && (r == Ok(b) <==>
                  && ref.uri.File? && root <= ref.uri.path && ref.uri.path in disk
                  && c.decrypt(disk[ref.uri.path]) == Some(b) && |b| == ref.size && c.hash(b) == ref.sha256)
            && (r == EgressRefused <==> ref.uri.Remote? || !(root <= ref.uri.path))
            && r != EmptyRefused
  {
  }

  /** Where a blob lies: fanned out by the first two characters of its hash. */
  lemma BlobLayout(c: Crypto, root: Path, p: Bytes)
    requires |c.hash(p)| >= 2
    ensures var ref, sha := RefOf(c, root, p), c.hash(p);
            && ref.sha256 == sha && ref.size == |p| && ref.uri == File(root + [sha[..2], sha + ".blob"])
            && TmpPath(root, sha) == root + [sha[..2], sha + ".blob.tmp"]
  {
    assert Fan(c.hash(p)) == c.hash(p)[..2];
  }

  /** If no other content has its hash, the reference of a `put` is never answered with other
      bytes, on whatever disk: `get` gives the bytes back exactly when the blob there decrypts
      to them, and refuses otherwise. */
  lemma TamperedIsRefused(c: Crypto, root: Path, disk: map<Path, Bytes>, p: Bytes)
    requires c.Unshared(p)
    ensures var path := BlobPath(root, c.hash(p));
            Fetched(c, root, disk, RefOf(c, root, p)) ==
            if path in disk && c.decrypt(disk[path]) == Some(p) then Ok(p) else IntegrityError
  {
    assert root <= BlobPath(root, c.hash(p));
  }

  /** Nor do two references that carry one hash, on two disks, ever give different bytes. */
  lemma OneHashOneContent(c: Crypto, root: Path, disk: map<Path, Bytes>, ref: StorageRef,
                          other: map<Path, Bytes>, ref2: StorageRef)
    requires Fetched(c, root, disk, ref).Ok? && Fetched(c, root, other, ref2).Ok?
    requires ref.sha256 == ref2.sha256 && c.Unshared(Fetched(c, root, disk, ref).value)
    ensures Fetched(c, root, disk, ref) == Fetched(c, root, other, ref2) && ref.size == ref2.size
  {
    GetIsFailClosed(c, root, disk, ref, Fetched(c, root, disk, ref).value);
    GetIsFailClosed(c, root, other, ref2, Fetched(c, root, other, ref2).value);
  }

  /** On any disk, a `put` followed by `get` of its reference gives the bytes back exactly when
      no blob was there before, or the one there decrypts to these bytes: `put` trusts an
      existing blob and does not repair it. */
  lemma PutThenGet(c: Crypto, root: Path, disk: map<Path, Bytes>, p: Bytes, nonce: Bytes)
    requires c.Sound()
    ensures Fetched(c, root, Stored(c, root, disk, p, nonce), RefOf(c, root, p)) == Ok(p) <==>
              var path := BlobPath(root, c.hash(p)); path !in disk || c.decrypt(disk[path]) == Some(p)
  {
    assert c.decrypt(c.encrypt(nonce, p)) == Some(p);
    assert root <= BlobPath(root, c.hash(p));
  }

  /** A second `put` of the same bytes changes nothing, and other blobs are never touched. */
  lemma PutIsIdempotent(c: Crypto, root: Path, disk: map<Path, Bytes>, p: Bytes, n1: Bytes, n2: Bytes, sha: string)
    ensures Stored(c, root, Stored(c, root, disk, p, n1), p, n2) == Stored(c, root, disk, p, n1)
    ensures sha != c.hash(p) ==>
              var once, path := Stored(c, root, disk, p, n1), BlobPath(root, sha);
              (path in once <==> path in disk) && (path in disk ==> once[path] == disk[path])
  {
    PathsApart(root, sha, c.hash(p));
  }

  // ------------------------------------------------------ runs with crashes

  /** The single writer: idle, about to write the temporary file, or about to publish it. */
  datatype Writer = Resting | Writing(p: Bytes, nonce: Bytes) | Publishing(p: Bytes, nonce: Bytes)

  /** The disk, the writer, and the contents whose `put` has returned. */
  datatype State = State(disk: map<Path, Bytes>, writer: Writer, returned: set<Bytes>)

  /** `Tear` is a crash inside the temporary write that leaves any bytes there; `Crash` is a
      crash between statements. */
  datatype Action = Put(p: Bytes, nonce: Bytes) | Write | Tear(junk: Bytes) | Publish | Crash

  function Next(c: Crypto, root: Path, s: State, a: Action): State {
    match (s.writer, a)
    case (Resting, Put(p, nonce)) =>
      if p == [] then s
      else if BlobPath(root, c.hash(p)) in s.disk then s.(returned := s.returned + {p})
      else s.(writer := Writing(p, nonce))
    case (Writing(p, nonce), Write) =>
      s.(disk := s.disk[TmpPath(root, c.hash(p)) := c.encrypt(nonce, p)], writer := Publishing(p, nonce))
    case (Writing(p, _), Tear(junk)) =>
      s.(disk := s.disk[TmpPath(root, c.hash(p)) := junk], writer := Resting)
    case (Publishing(p, _), Publish) =>
      var tmp := TmpPath(root, c.hash(p));
      if tmp !in s.disk then s
      else State((s.disk - {tmp})[BlobPath(root, c.hash(p)) := s.disk[tmp]], Resting, s.returned + {p})
    case (_, Crash) => s.(writer := Resting)
    case _ => s
  }

  function Run(c: Crypto, root: Path, actions: seq<Action>): State {
    if actions == [] then State(map[], Resting, {})
    else Next(c, root, Run(c, root, actions[..|actions| - 1]), actions[|actions| - 1])
  }

  /** The blob under this name decrypts to bytes that hash to the name. */
  ghost predicate Faithful(c: Crypto, root: Path, disk: map<Path, Bytes>, sha: string) {
    var path := BlobPath(root, sha);
    path in disk ==> c.decrypt(disk[path]).Some? && c.hash(c.decrypt(disk[path]).value) == sha
  }

  ghost predicate WriterOk(c: Crypto, root: Path, s: State) {
    s.writer.Publishing? ==>
      var tmp := TmpPath(root, c.hash(s.writer.p));
      tmp in s.disk && s.disk[tmp] == c.encrypt(s.writer.nonce, s.writer.p)
  }

  /** A stored content has its blob. */
  ghost predicate Kept(c: Crypto, root: Path, s: State, p: Bytes) {
    p in s.returned ==> BlobPath(root, c.hash(p)) in s.disk
  }

  lemma NextKeepsBlobs(c: Crypto, root: Path, s: State, a: Action, sha: string)
    requires c.Sound() && WriterOk(c, root, s) && Faithful(c, root, s.disk, sha)
    ensures Faithful(c, root, Next(c, root, s, a).disk, sha)
  {
    if !s.writer.Resting? {
      PathsApart(root, sha, c.hash(s.writer.p));
      assert c.decrypt(c.encrypt(s.writer.nonce, s.writer.p)) == Some(s.writer.p);
    }
  }

  lemma NextKeepsWriter(c: Crypto, root: Path, s: State, a: Action)
    requires WriterOk(c, root, s)
    ensures WriterOk(c, root, Next(c, root, s, a))
  {
  }

  lemma NextKeepsKept(c: Crypto, root: Path, s: State, a: Action, p: Bytes)
    requires WriterOk(c, root, s) && Kept(c, root, s, p)
    ensures Kept(c, root, Next(c, root, s, a), p)
  {
    if !s.writer.Resting? {
      PathsApart(root, c.hash(p), c.hash(s.writer.p));
    }
  }

  lemma {:induction false} RunWriter(c: Crypto, root: Path, actions: seq<Action>)
    ensures WriterOk(c, root, Run(c, root, actions))
  {
    if actions != [] {
      RunWriter(c, root, actions[..|actions| - 1]);
      NextKeepsWriter(c, root, Run(c, root, actions[..|actions| - 1]), actions[|actions| - 1]);
    }
  }

  /** In every run of puts, torn writes and crashes, every published blob decrypts to bytes
      that hash to its name. */
  lemma {:induction false} PublishedBlobsAreFaithful(c: Crypto, root: Path, actions: seq<Action>, sha: string)
    requires c.Sound()
    ensures Faithful(c, root, Run(c, root, actions).disk, sha)
  {
    if actions != [] {
      var front := actions[..|actions| - 1];
      PublishedBlobsAreFaithful(c, root, front, sha);
      RunWriter(c, root, front);
      NextKeepsBlobs(c, root, Run(c, root, front), actions[|actions| - 1], sha);
    }
  }

  lemma {:induction false} RunKeeps(c: Crypto, root: Path, actions: seq<Action>, p: Bytes)
    ensures Kept(c, root, Run(c, root, actions), p)
  {
    if actions != [] {
      var front := actions[..|actions| - 1];
      RunKeeps(c, root, front, p);
      RunWriter(c, root, front);
      NextKeepsKept(c, root, Run(c, root, front), actions[|actions| - 1], p);
    }
  }

  lemma {:induction false} ReturnedStays(c: Crypto, root: Path, before: seq<Action>, after: seq<Action>, p: Bytes)
    requires p in Run(c, root, before).returned
    ensures p in Run(c, root, before + after).returned
  {
    if after == [] {
      assert before + after == before;
    } else {
      var n := |after| - 1;
      ReturnedStays(c, root, before, after[..n], p);
      assert (before + after)[..|before| + n] == before + after[..n];
    }
  }

  /** Once a `put` has returned, after any further puts and crashes, `get` of its reference
      gives the original bytes, provided no other bytes have their hash. */
  lemma ReturnedIsRetrievable(c: Crypto, root: Path, before: seq<Action>, after: seq<Action>, p: Bytes)
    requires c.Sound() && p in Run(c, root, before).returned
    requires c.Unshared(p)
    ensures Fetched(c, root, Run(c, root, before + after).disk, RefOf(c, root, p)) == Ok(p)
  {
    ReturnedStays(c, root, before, after, p);
    RunKeeps(c, root, before + after, p);
    PublishedBlobsAreFaithful(c, root, before + after, c.hash(p));
    assert root <= BlobPath(root, c.hash(p));
  }

  /** A `put` that runs through without a crash does what `Stored` says. */
  lemma UninterruptedPut(c: Crypto, root: Path, s: State, p: Bytes, nonce: Bytes)
    requires s.writer.Resting? && p != []
    ensures var begun := Next(c, root, s, Put(p, nonce));
            var done := if begun.writer.Resting? then begun
                        else Next(c, root, Next(c, root, begun, Write), Publish);
            done == State(Stored(c, root, s.disk, p, nonce), Resting, s.returned + {p})
  {
    var sha := c.hash(p);
    PathsApart(root, sha, sha);
    if BlobPath(root, sha) !in s.disk {
      var tmp := TmpPath(root, sha);
      var written := s.disk[tmp := c.encrypt(nonce, p)];
      assert written - {tmp} == s.disk - {tmp};
    }
  }

  lemma RunSnoc(c: Crypto, root: Path, actions: seq<Action>, a: Action)
    ensures Run(c, root, actions + [a]) == Next(c, root, Run(c, root, actions), a)
  {
    assert (actions + [a])[..|actions|] == actions;
  }

  /** After any run with crashes, a `put` that is let through returns, and leaves the disk as
      the one-call specification says. */
  lemma PutAfterAnyRun(c: Crypto, root: Path, before: seq<Action>, p: Bytes, nonce: Bytes)
    requires Run(c, root, before).writer.Resting? && p != []
    ensures var s, after := Run(c, root, before), before + [Put(p, nonce), Write, Publish];
            Run(c, root, after) == State(Stored(c, root, s.disk, p, nonce), Resting, s.returned + {p})
  {
    UninterruptedPut(c, root, Run(c, root, before), p, nonce);
    RunSnoc(c, root, before, Put(p, nonce));
    RunSnoc(c, root, before + [Put(p, nonce)], Write);
    RunSnoc(c, root, before + [Put(p, nonce)] + [Write], Publish);
    assert before + [Put(p, nonce)] + [Write] + [Publish] == before + [Put(p, nonce), Write, Publish];
  }

  /** A crash loses the call and nothing on the disk; inside the write of the temporary file it
      leaves anything there, and no other file changes. */
  lemma CrashLosesTheCall(c: Crypto, root: Path, s: State, junk: Bytes)
    ensures Next(c, root, s, Crash) == State(s.disk, Resting, s.returned)
    ensures s.writer.Writing? ==>
              Next(c, root, s, Tear(junk)) == State(s.disk[TmpPath(root, c.hash(s.writer.p)) := junk], Resting, s.returned)
  {
  }

  /** A hash without collisions leaves every content its own. */
  lemma InjectiveHashIsUnshared(c: Crypto, p: Bytes)
    requires forall q, r :: c.hash(q) == c.hash(r) ==> q == r
    ensures c.Unshared(p)
  {
  }

  // -------------------------------------------------------------------- the class

  class SecureImageStore {
    const root: Path
    const crypto: Crypto
    var disk: map<Path, Bytes>

    constructor (root: Path, crypto: Crypto, disk: map<Path, Bytes>)
      ensures this.root == root && this.crypto == crypto && this.disk == disk
    {
      this.root, this.crypto, this.disk := root, crypto, disk;
    }

    method Put(p: Bytes, nonce: Bytes) returns (r: Result<StorageRef>)
      modifies this
      ensures p == [] ==> r == EmptyRefused && disk == old(disk)
      ensures p != [] ==> r == Ok(RefOf(crypto, root, p)) && disk == Stored(crypto, root, old(disk), p, nonce)
      ensures r.Ok? ==> r.value.uri.File? && r.value.sha256 == crypto.hash(p) && r.value.size == |p|
                        && r.value.uri.path in disk
                        && (r.value.uri.path !in old(disk) ==> disk[r.value.uri.path] == crypto.encrypt(nonce, p))
    {
      if p == [] {
        return EmptyRefused;
      }
      var digest := crypto.hash(p);
      var path := BlobPath(root, digest);
      if path !in disk {
        var tmp := TmpPath(root, digest);
        PathsApart(root, digest, digest);
        ghost var before := disk;
        disk := disk[tmp := crypto.encrypt(nonce, p)];
        assert disk - {tmp} == before - {tmp};
        disk := (disk - {tmp})[path := disk[tmp]];
      }
      r := Ok(StorageRef(File(path), digest, |p|));
    }

    method Get(ref: StorageRef) returns (r: Result<Bytes>)
      ensures r == Fetched(crypto, root, disk, ref)
    {
      if ref.uri.Remote? || !(root <= ref.uri.path) {
        return EgressRefused;
      }
      var path := ref.uri.path;
      if path !in disk {
        return IntegrityError;
      }
      var plain := crypto.decrypt(disk[path]);
      if plain.None? || |plain.value| != ref.size || crypto.hash(plain.value) != ref.sha256 {
        return IntegrityError;
      }
      r := Ok(plain.value);
    }
  }
}
