/**
 Resumable media uploads: file bytes and database rows have different crash semantics, and every
 operation orders its file and row effects so that a failure or a crash after any of them leaves
 acknowledged bytes intact and no lease over anything but its declared object.
 */
module Upload {
  type Bytes = seq<bv8>

  datatype UploadState = Receiving | Completed | Aborted | Expired

  datatype LeaseState = Active | Retired | Deleted

  datatype UploadRow = UploadRow(install: string, sha: string, mime: string, total: int, received: int,
                                 state: UploadState, expiresAt: int)

  datatype LeaseRow = LeaseRow(install: string, upload: string, sha: string, mime: string, size: int,
                               state: LeaseState, expiresAt: int)

  /** Staged files, the two tables, and (ghost bookkeeping) the chunks whose receipt was acknowledged. */
  datatype Media = Media(files: map<string, Bytes>, uploads: map<string, UploadRow>, leases: map<string, LeaseRow>,
                         chunks: map<string, seq<Bytes>>)

  /** How the content of a file is identified; the functions themselves are not modelled. */
  datatype Content = Content(sha: Bytes -> string, mime: Bytes -> string)

  function Joined(chunks: seq<Bytes>): Bytes {
    if |chunks| == 0 then [] else Joined(chunks[..|chunks| - 1]) + chunks[|chunks| - 1]
  }

  // ---------------------------------------------------------------- what every exit keeps

  predicate RowChecks(u: UploadRow) { 0 < u.total && 0 <= u.received <= u.total }

  function Acknowledged(m: Media, id: string): Bytes { if id in m.chunks then Joined(m.chunks[id]) else [] }

  /** A receiving upload's cursor is within its file, and the bytes up to it are the acknowledged chunks. */
  predicate CursorHolds(m: Media, id: string)
    requires id in m.uploads && RowChecks(m.uploads[id])
  {
    && id in m.files && m.uploads[id].received <= |m.files[id]|
    && m.files[id][..m.uploads[id].received] == Acknowledged(m, id)
  }

  /** A lease belongs to a completed upload; an active one names a file of the declared length, type and digest. */
  predicate LeaseHolds(m: Media, c: Content, l: LeaseRow) {
    && l.upload in m.uploads && m.uploads[l.upload].state == Completed
    && (l.state == Active ==>
          && l.upload in m.files && |m.files[l.upload]| == l.size == m.uploads[l.upload].total
          && c.sha(m.files[l.upload]) == l.sha == m.uploads[l.upload].sha
          && c.mime(m.files[l.upload]) == l.mime == m.uploads[l.upload].mime)
  }

  predicate RowAt(m: Media, id: string) { id in m.uploads ==> RowChecks(m.uploads[id]) }

  predicate LeaseAt(m: Media, c: Content, l: string) { l in m.leases ==> LeaseHolds(m, c, m.leases[l]) }

  predicate DistinctAt(m: Media, a: string, b: string) {
    a in m.leases && b in m.leases && a != b ==> m.leases[a].upload != m.leases[b].upload
  }

  /** What holds even after files were lost or shortened behind the service's back. */
  ghost predicate LeasesHold(m: Media, c: Content) {
    && (forall id :: RowAt(m, id))
    && (forall a, b :: DistinctAt(m, a, b))
    && (forall l :: LeaseAt(m, c, l))
  }

  predicate Receives(m: Media, id: string) { id in m.uploads && m.uploads[id].state == Receiving }

  predicate CursorAt(m: Media, id: string) { Receives(m, id) ==> RowChecks(m.uploads[id]) && CursorHolds(m, id) }

  /** An active lease's object is exactly the chunks that were acknowledged. */
  predicate ObjectAt(m: Media, l: string) {
    l in m.leases && m.leases[l].state == Active
    ==> m.leases[l].upload in m.files && m.files[m.leases[l].upload] == Acknowledged(m, m.leases[l].upload)
  }

  /** No file was lost: every cursor is backed by its acknowledged bytes, and leased objects are exactly those. */
  ghost predicate Sound(m: Media, c: Content) {
    && LeasesHold(m, c)
    && (forall id :: CursorAt(m, id))
    && (forall l :: ObjectAt(m, l))
  }

  /** A step that keeps both. */
  ghost predicate Keeps(m: Media, n: Media, c: Content) {
    LeasesHold(m, c) ==> LeasesHold(n, c) && (Sound(m, c) ==> Sound(n, c))
  }

  // ---------------------------------------------------------------- effects and their fates

  /**
   What becomes of one file or database effect: it happens; it fails and the caller sees the error;
   or the process dies at it. `partial` says how much of a write (or whether a single effect) still
   took place. A failed transaction leaves no trace.
   */
  datatype Fate = Fine | Fails(partial: nat) | Dies(partial: nat)

  datatype Io = Done | Failed | Died

  function IoOf(f: Fate): Io { if f.Fine? then Done else if f.Fails? then Io.Failed else Died }

  predicate FileEffect(f: Fate) { f.Fine? || f.partial > 0 }

  predicate RowEffect(f: Fate) { f.Fine? || (f.Dies? && f.partial > 0) }

  datatype Error = InvalidInput | NotFound | Conflict | Integrity | Fault

  datatype Result<+T> = Ok(value: T) | Err(error: Error) | Crashed

  // ---------------------------------------------------------------- steps that keep the invariant

  /** Anything may happen to a receiving upload's file past its cursor. */
  lemma TailIsFree(m: Media, c: Content, id: string, file: Bytes)
    requires Receives(m, id) && id in m.files && RowChecks(m.uploads[id])
    requires m.uploads[id].received <= |m.files[id]| ==>
      m.uploads[id].received <= |file| && file[..m.uploads[id].received] == m.files[id][..m.uploads[id].received]
    ensures Keeps(m, m.(files := m.files[id := file]), c)
  {
    var n := m.(files := m.files[id := file]);
    if LeasesHold(m, c) {
      forall l ensures LeaseAt(n, c, l) { assert LeaseAt(m, c, l); }
      forall a, b ensures DistinctAt(n, a, b) { assert DistinctAt(m, a, b); }
      forall x ensures RowAt(n, x) { assert RowAt(m, x); }
      if Sound(m, c) {
        forall x ensures CursorAt(n, x) { assert CursorAt(m, x); }
        forall l ensures ObjectAt(n, l) { assert LeaseAt(m, c, l) && ObjectAt(m, l); }
      }
    }
  }

  function Advanced(m: Media, id: string, chunk: Bytes): Media
    requires id in m.uploads
  {
    var u := m.uploads[id];
    m.(uploads := m.uploads[id := u.(received := u.received + |chunk|)],
       chunks := m.chunks[id := (if id in m.chunks then m.chunks[id] else []) + [chunk]])
  }

  /** Moving the cursor over the chunk just written acknowledges exactly that chunk. */
  lemma AdvanceKeeps(m: Media, c: Content, id: string, chunk: Bytes)
    requires Receives(m, id) && id in m.files
    requires |m.files[id]| == m.uploads[id].received + |chunk| <= m.uploads[id].total && m.uploads[id].received >= 0
    requires m.files[id][m.uploads[id].received..] == chunk
    ensures Keeps(m, Advanced(m, id, chunk), c)
  {
    var n := Advanced(m, id, chunk);
    if LeasesHold(m, c) {
      forall l ensures LeaseAt(n, c, l) { assert LeaseAt(m, c, l); }
      forall a, b ensures DistinctAt(n, a, b) { assert DistinctAt(m, a, b); }
      forall x ensures RowAt(n, x) { assert RowAt(m, x); }
      if Sound(m, c) {
        assert CursorAt(m, id);
        AcknowledgesChunk(m, id, chunk);
        forall x ensures CursorAt(n, x) { assert CursorAt(m, x); }
        forall l ensures ObjectAt(n, l) { assert LeaseAt(m, c, l) && ObjectAt(m, l); }
      }
    }
  }

  lemma AcknowledgesChunk(m: Media, id: string, chunk: Bytes)
    requires Receives(m, id) && id in m.files && RowChecks(m.uploads[id]) && CursorHolds(m, id)
    requires |m.files[id]| == m.uploads[id].received + |chunk| <= m.uploads[id].total
    requires m.files[id][m.uploads[id].received..] == chunk
    ensures CursorHolds(Advanced(m, id, chunk), id)
  {
    var n, r := Advanced(m, id, chunk), m.uploads[id].received;
    var cs := if id in m.chunks then m.chunks[id] else [];
    assert (cs + [chunk])[..|cs|] == cs;
    assert Acknowledged(n, id) == Joined(cs) + chunk;
    assert m.files[id][..r] + m.files[id][r..] == m.files[id];
    assert n.files[id][..n.uploads[id].received] == n.files[id];
  }

  // ---------------------------------------------------------------- refusals

  /** An upload only its owner can see, only while it is receiving and not expired. */
  function OpenOwned(m: Media, install: string, id: string, now: int): Result<UploadRow> {
    if |install| == 0 || |id| == 0 then Err(InvalidInput)
    else if id !in m.uploads || m.uploads[id].install != install then Err(NotFound)
    else if m.uploads[id].state != Receiving || now >= m.uploads[id].expiresAt then Err(Conflict)
    else Ok(m.uploads[id])
  }

  /** What Append refuses before it touches anything. */
  function AppendRefusal(m: Media, install: string, id: string, offset: int, chunk: Bytes, max: int, now: int)
    : Result<UploadRow>
  {
    if offset < 0 || |chunk| == 0 || |chunk| > max then Err(InvalidInput)
    else
      var u := OpenOwned(m, install, id, now);
      if !u.Ok? then u
      else if u.value.received != offset then Err(Conflict)
      else if id !in m.files then Err(Fault)
      else if |m.files[id]| < offset then Err(Integrity)
      else u
  }

  /** Only this upload's file may differ, and only past its cursor. */
  predicate OnlyTail(m: Media, n: Media, id: string)
    requires id in m.uploads
  {
    var r := m.uploads[id].received;
    && n == m.(files := n.files) && id in m.files && id in n.files && n.files == m.files[id := n.files[id]]
    && 0 <= r <= |m.files[id]| && r <= |n.files[id]| && n.files[id][..r] == m.files[id][..r]
  }

  /** The chunk is durable behind the old cursor, acknowledged, and nothing else changed. */
  predicate Appended(m: Media, n: Media, id: string, chunk: Bytes)
    requires id in m.uploads
  {
    var r := m.uploads[id].received;
    && n == Advanced(m, id, chunk).(files := n.files) && id in m.files && 0 <= r <= |m.files[id]|
    && n.files == m.files[id := m.files[id][..r] + chunk]
  }

  /** Success acknowledges the whole chunk, an error none of it, and a crash one or the other. */
  predicate AppendOutcome(m: Media, n: Media, id: string, chunk: Bytes, r: Result<int>)
    requires id in m.uploads
  {
    match r
    case Ok(received) => received == m.uploads[id].received + |chunk| && Appended(m, n, id, chunk)
    case Err(_) => OnlyTail(m, n, id)
    case Crashed => OnlyTail(m, n, id) || Appended(m, n, id, chunk)
  }

  /** The cursor update ran: it moves the cursor, or finds the upload expired and cuts the chunk off again. */
  predicate Advances(r: Result<int>, u: UploadRow, later: int, undo: Fate) {
    if later < u.expiresAt then r.Ok? else r == Err(Conflict) || (undo.Dies? && r.Crashed?)
  }

  lemma OutcomeKeeps(m: Media, n: Media, c: Content, id: string, chunk: Bytes, r: Result<int>)
    requires Receives(m, id) && RowChecks(m.uploads[id]) && AppendOutcome(m, n, id, chunk, r)
    requires OnlyTail(m, n, id) || m.uploads[id].received + |chunk| <= m.uploads[id].total
    ensures Keeps(m, n, c)
  {
    var u := m.uploads[id];
    if OnlyTail(m, n, id) {
      TailIsFree(m, c, id, n.files[id]);
    } else {
      var w := m.(files := n.files);
      TailIsFree(m, c, id, n.files[id]);
      AdvanceKeeps(w, c, id, chunk);
      assert n == Advanced(w, id, chunk);
    }
  }

  lemma TailThenOutcome(m: Media, w: Media, n: Media, id: string, chunk: Bytes, r: Result<int>)
    requires id in m.uploads && RowChecks(m.uploads[id]) && OnlyTail(m, w, id) && AppendOutcome(w, n, id, chunk, r)
    ensures AppendOutcome(m, n, id, chunk, r) && (OnlyTail(w, n, id) ==> OnlyTail(m, n, id))
  {
  }

  // ---------------------------------------------------------------- create, seal, cancel

  /** A new upload's file and row, both empty; or neither row, and at most a stray file no row names. */
  predicate CreateOutcome(m: Media, n: Media, id: string, row: UploadRow, created: bool) {
    && n.leases == m.leases && (id in m.files ==> n.files == m.files)
    && (n.files == m.files || n.files == m.files[id := []])
    && if created
       then
         && id !in m.uploads && id in n.files && id !in m.files
         && n.uploads == m.uploads[id := row] && n.chunks == m.chunks[id := []]
       else n.uploads == m.uploads && n.chunks == m.chunks
  }

  lemma CreateKeeps(m: Media, n: Media, c: Content, id: string, row: UploadRow, created: bool)
    requires CreateOutcome(m, n, id, row, created) && RowChecks(row) && row.received == 0 && row.state == Receiving
    ensures Keeps(m, n, c)
  {
    if LeasesHold(m, c) {
      forall l ensures LeaseAt(n, c, l) { assert LeaseAt(m, c, l); }
      forall a, b ensures DistinctAt(n, a, b) { assert DistinctAt(m, a, b); }
      forall x ensures RowAt(n, x) { assert RowAt(m, x); }
      if Sound(m, c) {
        forall x ensures CursorAt(n, x) { assert CursorAt(m, x); }
        forall l ensures ObjectAt(n, l) { assert LeaseAt(m, c, l) && ObjectAt(m, l); }
      }
    }
  }

  /** What Complete refuses; otherwise the lease it is going to create. */
  function CompleteRefusal(m: Media, c: Content, install: string, id: string, now: int, until: int): Result<LeaseRow> {
    var u := OpenOwned(m, install, id, now);
    if u.Err? then Err(u.error)
    else if u.Crashed? || u.value.received != u.value.total then Err(Conflict)
    else if id !in m.files then Err(Fault)
    else if |m.files[id]| != u.value.total || c.sha(m.files[id]) != u.value.sha then Err(Integrity)
    else if c.mime(m.files[id]) != u.value.mime then Err(Integrity)
    else Ok(LeaseRow(install, id, u.value.sha, u.value.mime, u.value.total, Active, until))
  }

  /** Reading the committed lease again: it is there, it is not found, or the read fails. */
  datatype ReadBack = There | Missing | Unreadable

  function ReadAgain(lease: LeaseRow, b: ReadBack): Result<LeaseRow> {
    match b
    case There => Ok(lease)
    case Missing => Err(Conflict)
    case Unreadable => Err(Fault)
  }

  function Sealed(m: Media, id: string, leaseId: string, lease: LeaseRow): Media
    requires id in m.uploads
  {
    m.(uploads := m.uploads[id := m.uploads[id].(state := Completed)], leases := m.leases[leaseId := lease])
  }

  lemma SealKeeps(m: Media, c: Content, install: string, id: string, leaseId: string, now: int, until: int)
    requires CompleteRefusal(m, c, install, id, now, until).Ok? && leaseId !in m.leases
    ensures Keeps(m, Sealed(m, id, leaseId, CompleteRefusal(m, c, install, id, now, until).value), c)
  {
    var lease := CompleteRefusal(m, c, install, id, now, until).value;
    var n := Sealed(m, id, leaseId, lease);
    if LeasesHold(m, c) {
      forall l ensures LeaseAt(n, c, l) { assert LeaseAt(m, c, l); }
      forall a, b ensures DistinctAt(n, a, b) {
        assert DistinctAt(m, a, b) && LeaseAt(m, c, a) && LeaseAt(m, c, b);
      }
      forall x ensures RowAt(n, x) { assert RowAt(m, x); }
      if Sound(m, c) {
        assert CursorAt(m, id);
        assert m.files[id][..m.uploads[id].received] == m.files[id];
        forall x ensures CursorAt(n, x) { assert CursorAt(m, x); }
        forall l ensures ObjectAt(n, l) { assert ObjectAt(m, l); }
      }
    }
  }

  /** The row left the receiving state first; only then may its file have gone. */
  predicate Withdrawn(m: Media, n: Media, id: string, to: UploadState)
    requires id in m.uploads
  {
    && n.uploads == m.uploads[id := m.uploads[id].(state := to)]
    && n.leases == m.leases && n.chunks == m.chunks
    && (n.files == m.files || n.files == m.files - {id})
  }

  predicate SameFile(m: Media, n: Media, id: string) { id in m.files ==> id in n.files && n.files[id] == m.files[id] }

  predicate LeaseNarrowsAt(m: Media, n: Media, l: string) {
    l in n.leases ==>
      && l in m.leases && n.leases[l] == m.leases[l].(state := n.leases[l].state)
      && (n.leases[l].state == Active ==> m.leases[l].state == Active && SameFile(m, n, n.leases[l].upload))
  }

  predicate RowNarrowsAt(m: Media, n: Media, id: string) {
    && (id in m.uploads && m.uploads[id].state == Completed ==> id in n.uploads && n.uploads[id] == m.uploads[id])
    && (id in n.uploads ==>
          && id in m.uploads && n.uploads[id] == m.uploads[id].(state := n.uploads[id].state)
          && Acknowledged(n, id) == Acknowledged(m, id)
          && (n.uploads[id].state == Receiving ==> m.uploads[id].state == Receiving && SameFile(m, n, id)))
  }

  /** A later state that only retires: no row or lease becomes usable, and no usable one loses its file. */
  ghost predicate Narrows(m: Media, n: Media) {
    (forall l :: LeaseNarrowsAt(m, n, l)) && (forall id :: RowNarrowsAt(m, n, id))
  }

  lemma NarrowingKeeps(m: Media, n: Media, c: Content)
    requires Narrows(m, n)
    ensures Keeps(m, n, c)
  {
    if LeasesHold(m, c) {
      forall l ensures LeaseAt(n, c, l) {
        assert LeaseNarrowsAt(m, n, l) && LeaseAt(m, c, l);
        assert l in n.leases ==> RowNarrowsAt(m, n, n.leases[l].upload);
      }
      forall a, b ensures DistinctAt(n, a, b) {
        assert LeaseNarrowsAt(m, n, a) && LeaseNarrowsAt(m, n, b) && DistinctAt(m, a, b);
      }
      forall x ensures RowAt(n, x) { assert RowNarrowsAt(m, n, x) && RowAt(m, x); }
      if Sound(m, c) {
        forall x ensures CursorAt(n, x) { assert RowNarrowsAt(m, n, x) && CursorAt(m, x); }
        forall l ensures ObjectAt(n, l) {
          assert LeaseNarrowsAt(m, n, l) && ObjectAt(m, l) && LeaseAt(m, c, l);
          assert l in n.leases ==> RowNarrowsAt(m, n, n.leases[l].upload);
        }
      }
    }
  }

  lemma WithdrawKeeps(m: Media, n: Media, c: Content, id: string, to: UploadState)
    requires LeasesHold(m, c) && id in m.uploads && m.uploads[id].state != Completed
    requires to != Completed && to != Receiving
    requires Withdrawn(m, n, id, to)
    ensures Keeps(m, n, c)
  {
    forall l ensures LeaseNarrowsAt(m, n, l) { assert LeaseAt(m, c, l); }
    NarrowingKeeps(m, n, c);
  }

  // ---------------------------------------------------------------- recovery

  /** Rows whose time is over leave the receiving and active states. */
  function Lapsed(m: Media, now: int): Media {
    m.(uploads := map id | id in m.uploads :: var u := m.uploads[id];
         if u.state == Receiving && u.expiresAt <= now then u.(state := Expired) else u,
       leases := map l | l in m.leases :: var lease := m.leases[l];
         if lease.state == Active && lease.expiresAt <= now then lease.(state := Retired) else lease)
  }

  lemma LapseKeeps(m: Media, c: Content, now: int)
    ensures Keeps(m, Lapsed(m, now), c)
  {
    NarrowingKeeps(m, Lapsed(m, now), c);
  }

  /** The upload's row, file and acknowledged chunks are as they were. */
  predicate SameAt(m: Media, n: Media, id: string) {
    && (id in m.uploads <==> id in n.uploads) && (id in m.uploads ==> n.uploads[id] == m.uploads[id])
    && (id in m.files <==> id in n.files) && (id in m.files ==> n.files[id] == m.files[id])
  }

  /** A receiving upload is cut back to its cursor when its bytes are there, and expired when they are not. */
  predicate Repaired(m: Media, n: Media, id: string)
    requires Receives(m, id)
  {
    var u := m.uploads[id];
    if id in m.files && 0 <= u.received <= |m.files[id]| then
      id in n.uploads && n.uploads[id] == u && id in n.files && n.files[id] == m.files[id][..u.received]
    else id in n.uploads && n.uploads[id] == u.(state := Expired)
  }

  /** Bytes no lifecycle state allows any use of. */
  ghost predicate Removable(m: Media, id: string) {
    id in m.uploads && (IsWithdrawn(m.uploads[id]) || exists l :: RetiredLease(m, l, id))
  }

  predicate RetiredLease(m: Media, l: string, id: string) {
    l in m.leases && m.leases[l].upload == id && m.leases[l].state == Retired
  }

  /** The row of a withdrawn upload goes once its file is gone; a completed one stays, its lease marked deleted. */
  function Acknowledge(m: Media, id: string): Media
    requires id in m.uploads
  {
    if m.uploads[id].state == Aborted || m.uploads[id].state == Expired
    then m.(uploads := m.uploads - {id}, chunks := m.chunks - {id})
    else m.(leases := map l | l in m.leases ::
           if RetiredLease(m, l, id) then m.leases[l].(state := Deleted) else m.leases[l])
  }

  lemma RemoveKeeps(m: Media, c: Content, id: string)
    requires LeasesHold(m, c) && Removable(m, id)
    ensures Keeps(m, m.(files := m.files - {id}), c)
  {
    var n := m.(files := m.files - {id});
    forall l ensures LeaseNarrowsAt(m, n, l) { NoActiveLease(m, c, id, l); }
    assert m.uploads[id].state != Receiving by { RemovableIsOver(m, c, id); }
    NarrowingKeeps(m, n, c);
  }

  lemma RemovableIsOver(m: Media, c: Content, id: string)
    requires LeasesHold(m, c) && Removable(m, id)
    ensures m.uploads[id].state != Receiving
  {
    if !IsWithdrawn(m.uploads[id]) {
      var k :| RetiredLease(m, k, id);
      assert LeaseAt(m, c, k);
    }
  }

  lemma NoActiveLease(m: Media, c: Content, id: string, l: string)
    requires LeasesHold(m, c) && Removable(m, id)
    ensures l in m.leases && m.leases[l].upload == id ==> m.leases[l].state != Active
  {
    assert LeaseAt(m, c, l);
    if !IsWithdrawn(m.uploads[id]) {
      var k :| RetiredLease(m, k, id);
      assert DistinctAt(m, k, l);
    }
  }

  lemma AcknowledgeKeeps(m: Media, c: Content, id: string)
    requires id in m.uploads
    ensures Keeps(m, Acknowledge(m, id), c)
  {
    NarrowingKeeps(m, Acknowledge(m, id), c);
  }

  predicate IsWithdrawn(u: UploadRow) { u.state == Aborted || u.state == Expired }

  predicate DroppedRow(m: Media, n: Media, done: set<string>, x: string) {
    && (x in n.uploads <==> x in m.uploads && !(x in done && IsWithdrawn(m.uploads[x])))
    && (x in n.uploads ==> n.uploads[x] == m.uploads[x])
    && (x in n.files <==> x in m.files && x !in done) && (x in n.files ==> n.files[x] == m.files[x])
  }

  predicate DroppedLease(m: Media, n: Media, done: set<string>, l: string) {
    (l in n.leases <==> l in m.leases) && (l in n.leases ==> n.leases[l] == FinalLease(m.leases[l], done))
  }

  /** The cleanup of these uploads: their files, then their rows or their leases' last state. */
  ghost predicate Dropped(m: Media, n: Media, done: set<string>) {
    && (forall x :: DroppedRow(m, n, done, x))
    && (forall l :: DroppedLease(m, n, done, l))
  }

  lemma NothingDropped(m: Media)
    ensures Dropped(m, m, {})
  {
  }

  function FinalLease(l: LeaseRow, done: set<string>): LeaseRow {
    if l.state == Retired && l.upload in done then l.(state := Deleted) else l
  }

  lemma StillRemovable(m: Media, w: Media, done: set<string>, id: string)
    requires Dropped(m, w, done) && Removable(m, id) && id !in done
    ensures Removable(w, id)
  {
    assert DroppedRow(m, w, done, id);
    if !IsWithdrawn(m.uploads[id]) {
      var k :| RetiredLease(m, k, id);
      assert DroppedLease(m, w, done, k);
      assert RetiredLease(w, k, id);
    }
  }

  lemma DropOneMore(m: Media, c: Content, w: Media, done: set<string>, id: string)
    requires LeasesHold(m, c) && Dropped(m, w, done) && id in w.uploads && id !in done
    ensures Dropped(m, Acknowledge(w, id).(files := w.files - {id}), done + {id})
  {
    var n := Acknowledge(w, id).(files := w.files - {id});
    assert DroppedRow(m, w, done, id);
    forall l ensures DroppedLease(m, n, done + {id}, l) {
      assert LeaseAt(m, c, l) && DroppedLease(m, w, done, l);
    }
    forall x ensures DroppedRow(m, n, done + {id}, x) {
      assert DroppedRow(m, w, done, x);
    }
  }

  /** The ids the cleanup pass selects. */
  function Candidates(uploads: map<string, UploadRow>, leases: map<string, LeaseRow>): set<string> {
    (set id | id in uploads && IsWithdrawn(uploads[id])) +
    (set l | l in leases && leases[l].state == Retired && leases[l].upload in uploads :: leases[l].upload)
  }

  lemma CandidatesAreRemovable(m: Media, id: string)
    ensures id in Candidates(m.uploads, m.leases) <==> Removable(m, id)
  {
    if id in m.uploads && !IsWithdrawn(m.uploads[id]) {
      if exists l :: RetiredLease(m, l, id) {
        var l :| RetiredLease(m, l, id);
        assert m.leases[l].upload in Candidates(m.uploads, m.leases);
      }
      if id in Candidates(m.uploads, m.leases) {
        var l :| l in m.leases && m.leases[l].state == Retired && m.leases[l].upload == id;
        assert RetiredLease(m, l, id);
      }
    }
  }

  /** Which uploads a recovery keeps receiving: unexpired, with every byte up to the cursor there. */
  predicate Survives(m: Media, id: string, now: int) {
    && Receives(m, id) && m.uploads[id].expiresAt > now
    && id in m.files && 0 <= m.uploads[id].received <= |m.files[id]|
  }

  predicate RecoveredUpload(m: Media, n: Media, now: int, id: string) {
    && (Receives(n, id) <==> Survives(m, id, now))
    && (Survives(m, id, now) ==>
          n.uploads[id] == m.uploads[id] && id in n.files && n.files[id] == m.files[id][..m.uploads[id].received])
    && (id in n.uploads ==> !IsWithdrawn(n.uploads[id]))
  }

  predicate RecoveredLease(m: Media, n: Media, now: int, l: string) {
    && (l in n.leases <==> l in m.leases)
    && (l in m.leases ==>
          && n.leases[l] == SettledLease(m.leases[l], now)
          && (n.leases[l].state == Deleted && m.leases[l].state != Deleted ==> n.leases[l].upload !in n.files))
  }

  /** A finished recovery: survivors cut back to their cursors, the withdrawn gone, every lease live or deleted. */
  ghost predicate Recovered(m: Media, n: Media, now: int) {
    (forall id :: RecoveredUpload(m, n, now, id)) && (forall l :: RecoveredLease(m, n, now, l))
  }

  function SettledLease(l: LeaseRow, now: int): LeaseRow {
    if l.state == Deleted || (l.state == Active && l.expiresAt > now) then l else l.(state := Deleted)
  }

  /** Every receiving upload has been through the repair pass, and nothing else changed. */
  ghost predicate AllRepaired(m: Media, n: Media, todo: set<string>) {
    && n.leases == m.leases
    && (forall x :: x in todo ==> Receives(m, x))
    && (forall x :: Receives(m, x) && x !in todo ==> Repaired(m, n, x))
    && (forall x :: !Receives(m, x) || x in todo ==> SameAt(m, n, x))
  }

  lemma RepairedAt(m: Media, v: Media, now: int, id: string)
    requires AllRepaired(Lapsed(m, now), v, {})
    ensures Receives(v, id) <==> Survives(m, id, now)
    ensures Survives(m, id, now) ==> v.uploads[id] == m.uploads[id] && id in v.files
                                     && v.files[id] == m.files[id][..m.uploads[id].received]
  {
    var w := Lapsed(m, now);
    if Receives(w, id) {
      assert Repaired(w, v, id);
    } else {
      assert SameAt(w, v, id);
    }
  }

  lemma ReceivingIsKept(v: Media, c: Content, id: string)
    requires LeasesHold(v, c) && Receives(v, id)
    ensures id !in Candidates(v.uploads, v.leases)
  {
    CandidatesAreRemovable(v, id);
    forall l ensures !RetiredLease(v, l, id) { assert LeaseAt(v, c, l); }
  }

  lemma CandidatesDropped(v: Media, c: Content, n: Media, id: string)
    requires LeasesHold(v, c) && Dropped(v, n, Candidates(v.uploads, v.leases))
    ensures Receives(n, id) <==> Receives(v, id)
    ensures Receives(v, id) ==> n.uploads[id] == v.uploads[id] && SameFile(v, n, id)
    ensures id in n.uploads ==> !IsWithdrawn(n.uploads[id])
  {
    assert DroppedRow(v, n, Candidates(v.uploads, v.leases), id);
    CandidatesAreRemovable(v, id);
    if Receives(v, id) { ReceivingIsKept(v, c, id); }
  }

  lemma LeasesSettled(m: Media, c: Content, v: Media, n: Media, now: int, l: string)
    requires LeasesHold(v, c) && v.leases == Lapsed(m, now).leases && Dropped(v, n, Candidates(v.uploads, v.leases))
    ensures l in n.leases <==> l in m.leases
    ensures l in m.leases ==> n.leases[l] == SettledLease(m.leases[l], now)
    ensures l in m.leases && n.leases[l].state == Deleted && m.leases[l].state != Deleted
            ==> n.leases[l].upload !in n.files
  {
    assert DroppedLease(v, n, Candidates(v.uploads, v.leases), l) && LeaseAt(v, c, l);
    assert l in v.leases && v.leases[l].state == Retired ==> v.leases[l].upload in Candidates(v.uploads, v.leases);
    assert l in v.leases ==> DroppedRow(v, n, Candidates(v.uploads, v.leases), v.leases[l].upload);
  }

  lemma RecoveredInStages(m: Media, c: Content, v: Media, n: Media, now: int)
    requires LeasesHold(v, c) && AllRepaired(Lapsed(m, now), v, {}) && Dropped(v, n, Candidates(v.uploads, v.leases))
    ensures Recovered(m, n, now)
  {
    forall id ensures RecoveredUpload(m, n, now, id) {
      RepairedAt(m, v, now, id);
      CandidatesDropped(v, c, n, id);
    }
    forall l ensures RecoveredLease(m, n, now, l) {
      LeasesSettled(m, c, v, n, now, l);
    }
  }

  // ---------------------------------------------------------------- histories

  /** What a call can have done: an operation of the service, or one item of a recovery pass. */
  datatype Call =
    | Creates(id: string, row: UploadRow, made: bool)
    | Appends(id: string, chunk: Bytes, answer: Result<int>)
    | Seals(install: string, id: string, leaseId: string, now: int, until: int)
    | Cancels(id: string)
    | Revokes(leaseId: string)
    | Lapses(now: int)
    | CutsBack(id: string)
    | GivesUp(id: string)
    | Drops(id: string, told: bool)

  /** The outcomes of a call, its failures and crashes among them; a call may also leave everything as it was. */
  ghost predicate Step(m: Media, n: Media, c: Content, e: Call) {
    match e
    case Creates(id, row, made) =>
      CreateOutcome(m, n, id, row, made) && RowChecks(row) && row.received == 0 && row.state == Receiving
    case Appends(id, chunk, answer) =>
      Receives(m, id) && AppendOutcome(m, n, id, chunk, answer) &&
      (OnlyTail(m, n, id) || m.uploads[id].received + |chunk| <= m.uploads[id].total)
    case Seals(install, id, leaseId, now, until) =>
      var lease := CompleteRefusal(m, c, install, id, now, until);
      lease.Ok? && leaseId !in m.leases && n == Sealed(m, id, leaseId, lease.value)
    case Cancels(id) =>
      id in m.uploads && (m.uploads[id].state == Receiving || m.uploads[id].state == Aborted) &&
      Withdrawn(m, n, id, Aborted)
    case Revokes(l) =>
      l in m.leases && m.leases[l].state == Active &&
      n == m.(leases := m.leases[l := m.leases[l].(state := Retired)])
    case Lapses(now) => n == Lapsed(m, now)
    case CutsBack(id) => Receives(m, id) && OnlyTail(m, n, id) && |n.files[id]| == m.uploads[id].received
    case GivesUp(id) => Receives(m, id) && Withdrawn(m, n, id, Expired) && n.files == m.files
    case Drops(id, told) => Removable(m, id) && n == (if told then Acknowledge(m, id) else m).(files := m.files - {id})
  }

  lemma StepKeeps(m: Media, n: Media, c: Content, e: Call)
    requires Step(m, n, c, e)
    ensures Keeps(m, n, c)
  {
    if LeasesHold(m, c) {
      match e
      case Creates(id, row, made) => CreateKeeps(m, n, c, id, row, made);
      case Appends(id, chunk, answer) => assert RowAt(m, id); OutcomeKeeps(m, n, c, id, chunk, answer);
      case Seals(install, id, leaseId, now, until) => SealKeeps(m, c, install, id, leaseId, now, until);
      case Cancels(id) => WithdrawKeeps(m, n, c, id, Aborted);
      case Revokes(_) => NarrowingKeeps(m, n, c);
      case Lapses(now) => LapseKeeps(m, c, now);
      case CutsBack(id) => assert RowAt(m, id); TailIsFree(m, c, id, n.files[id]);
      case GivesUp(id) => WithdrawKeeps(m, n, c, id, Expired);
      case Drops(id, told) => DropKeeps(m, c, id, told);
    }
  }

  lemma DropKeeps(m: Media, c: Content, id: string, told: bool)
    requires LeasesHold(m, c) && Removable(m, id)
    ensures Keeps(m, (if told then Acknowledge(m, id) else m).(files := m.files - {id}), c)
  {
    var w := m.(files := m.files - {id});
    RemoveKeeps(m, c, id);
    AcknowledgeKeeps(w, c, id);
    assert Acknowledge(w, id) == Acknowledge(m, id).(files := m.files - {id});
  }

  ghost predicate Moves(m: Media, n: Media, c: Content) { m == n || exists e :: Step(m, n, c, e) }

  lemma Moved(m: Media, n: Media, c: Content, e: Call)
    requires Step(m, n, c, e)
    ensures Moves(m, n, c) && Keeps(m, n, c)
  {
    StepKeeps(m, n, c, e);
  }

  lemma MovesKeep(m: Media, n: Media, c: Content)
    requires Moves(m, n, c)
    ensures Keeps(m, n, c)
  {
    if m != n {
      var e :| Step(m, n, c, e);
      StepKeeps(m, n, c, e);
    }
  }

  ghost predicate MovesAt(states: seq<Media>, c: Content, k: nat)
    requires k + 1 < |states|
  {
    Moves(states[k], states[k + 1], c)
  }

  /** States that follow each other call by call. */
  ghost predicate Path(states: seq<Media>, c: Content) {
    |states| > 0 && forall k :: 0 <= k < |states| - 1 ==> MovesAt(states, c, k)
  }

  /** The calls of a whole history, from the empty store. */
  ghost predicate History(states: seq<Media>, c: Content) {
    Path(states, c) && states[0] == Media(map[], map[], map[], map[])
  }

  /** n follows from m by calls that each have one of their outcomes. */
  ghost predicate Reaches(m: Media, n: Media, c: Content) {
    exists states :: Path(states, c) && states[0] == m && states[|states| - 1] == n
  }

  lemma ReachesItself(m: Media, c: Content)
    ensures Reaches(m, m, c)
  {
    assert Path([m], c);
  }

  lemma ReachesOn(m: Media, w: Media, n: Media, c: Content)
    requires Reaches(m, w, c) && Moves(w, n, c)
    ensures Reaches(m, n, c)
  {
    var states :| Path(states, c) && states[0] == m && states[|states| - 1] == w;
    var all := states + [n];
    forall k | 0 <= k < |all| - 1 ensures MovesAt(all, c, k) {
      if k + 1 < |states| { assert MovesAt(states, c, k); }
    }
    assert all[|all| - 1] == n && all[0] == m;
  }

  lemma ReachesAlong(m: Media, w: Media, n: Media, c: Content)
    requires Reaches(m, w, c) && Reaches(w, n, c)
    ensures Reaches(m, n, c)
  {
    var states :| Path(states, c) && states[0] == w && states[|states| - 1] == n;
    ReachesPath(m, states, c, |states| - 1);
  }

  lemma {:induction false} ReachesPath(m: Media, states: seq<Media>, c: Content, k: nat)
    requires Path(states, c) && k < |states| && Reaches(m, states[0], c)
    ensures Reaches(m, states[k], c)
  {
    if k > 0 {
      ReachesPath(m, states, c, k - 1);
      assert MovesAt(states, c, k - 1);
      ReachesOn(m, states[k - 1], states[k], c);
    }
  }

  lemma {:induction false} PathKeeps(states: seq<Media>, c: Content, n: nat)
    requires Path(states, c) && n < |states|
    ensures Keeps(states[0], states[n], c)
  {
    if n > 0 {
      PathKeeps(states, c, n - 1);
      assert MovesAt(states, c, n - 1);
      MovesKeep(states[n - 1], states[n], c);
    }
  }

  /**
   Over any history of calls, each of which may succeed, fail or die at any of its effects, every
   cursor stays backed by the acknowledged bytes and every active lease by its declared object.
   */
  lemma EveryHistoryIsSound(states: seq<Media>, c: Content, n: nat)
    requires History(states, c) && n < |states|
    ensures Sound(states[n], c)
  {
    PathKeeps(states, c, n);
  }

  /** So every state the service can get to is sound, recoveries cut short at any effect among its past. */
  lemma WhateverIsReachedIsSound(n: Media, c: Content)
    requires Reaches(Media(map[], map[], map[], map[]), n, c)
    ensures Sound(n, c)
  {
    var states :| Path(states, c) && states[0] == Media(map[], map[], map[], map[]) && states[|states| - 1] == n;
    EveryHistoryIsSound(states, c, |states| - 1);
  }

  lemma LeasesAlwaysHold(states: seq<Media>, c: Content, n: nat)
    requires History(states, c) && n < |states|
    ensures LeasesHold(states[n], c)
  {
    EveryHistoryIsSound(states, c, n);
  }

  /** The upload's row is there in every state from m to n. */
  predicate Stands(states: seq<Media>, id: string, m: nat, n: nat)
    requires n < |states|
  {
    forall k :: m <= k <= n ==> id in states[k].uploads
  }

  /** The upload is the same one, its state final once it is, and what was acknowledged of it still is. */
  predicate UploadGoesOn(m: Media, n: Media, id: string) {
    id in m.uploads && id in n.uploads ==>
      var u, v := m.uploads[id], n.uploads[id];
      && v == u.(received := v.received, state := v.state) && u.received <= v.received
      && (u.state != Receiving ==> v.received == u.received && v.state == u.state)
      && Acknowledged(m, id) <= Acknowledged(n, id)
  }

  function Age(s: LeaseState): nat { if s == Active then 0 else if s == Retired then 1 else 2 }

  /** The lease is the same one and only grows older. */
  predicate LeaseGoesOn(m: Media, n: Media, l: string) {
    l in m.leases ==>
      l in n.leases && n.leases[l] == m.leases[l].(state := n.leases[l].state) &&
      Age(m.leases[l].state) <= Age(n.leases[l].state)
  }

  lemma AppendGoesOn(m: Media, n: Media, id: string, chunk: Bytes, answer: Result<int>, x: string)
    requires Receives(m, id) && AppendOutcome(m, n, id, chunk, answer)
    ensures UploadGoesOn(m, n, x)
  {
    if !OnlyTail(m, n, id) {
      var cs := if id in m.chunks then m.chunks[id] else [];
      assert (cs + [chunk])[..|cs|] == cs;
    }
  }

  lemma UploadStep(m: Media, n: Media, c: Content, e: Call, id: string)
    requires LeasesHold(m, c) && Step(m, n, c, e)
    ensures UploadGoesOn(m, n, id)
  {
    if e.Appends? {
      AppendGoesOn(m, n, e.id, e.chunk, e.answer, id);
    } else if e.Drops? {
      assert Removable(m, e.id);
    }
  }

  lemma LeaseStep(m: Media, n: Media, c: Content, e: Call, l: string)
    requires Step(m, n, c, e)
    ensures LeaseGoesOn(m, n, l)
  {
  }

  lemma UploadMove(m: Media, w: Media, n: Media, c: Content, id: string)
    requires LeasesHold(w, c) && Moves(w, n, c) && UploadGoesOn(m, w, id)
    requires id in m.uploads ==> id in w.uploads
    ensures UploadGoesOn(m, n, id)
  {
    if w != n {
      var e :| Step(w, n, c, e);
      UploadStep(w, n, c, e, id);
    }
  }

  lemma UploadMoves(states: seq<Media>, c: Content, id: string, m: nat, k: nat)
    requires History(states, c) && m <= k && k + 1 < |states| && id in states[k].uploads
    requires UploadGoesOn(states[m], states[k], id)
    ensures UploadGoesOn(states[m], states[k + 1], id)
  {
    assert MovesAt(states, c, k);
    LeasesAlwaysHold(states, c, k);
    UploadMove(states[m], states[k], states[k + 1], c, id);
  }

  /** Over any history an upload never loses an acknowledged byte while its row stands, nor leaves a final state. */
  lemma {:induction false} UploadsGoOn(states: seq<Media>, c: Content, id: string, m: nat, n: nat)
    requires History(states, c) && m <= n < |states| && Stands(states, id, m, n)
    ensures UploadGoesOn(states[m], states[n], id)
  {
    if m < n {
      UploadsGoOn(states, c, id, m, n - 1);
      UploadMoves(states, c, id, m, n - 1);
    }
  }

  /** Bytes acknowledged at any moment are still in the file whenever the upload receives or a lease is active on it. */
  lemma AcknowledgedBytesStay(states: seq<Media>, c: Content, id: string, m: nat, n: nat, l: string)
    requires History(states, c) && m <= n < |states| && Stands(states, id, m, n)
    requires Receives(states[n], id) || ActiveOn(states[n], l, id)
    ensures id in states[n].files && Acknowledged(states[m], id) <= states[n].files[id]
  {
    UploadsGoOn(states, c, id, m, n);
    EveryHistoryIsSound(states, c, n);
    assert CursorAt(states[n], id) && ObjectAt(states[n], l);
  }

  predicate ActiveOn(m: Media, l: string, id: string) {
    l in m.leases && m.leases[l].upload == id && m.leases[l].state == Active
  }

  /** Over any history a lease names the same object for good and, once retired, never opens again. */
  lemma {:induction false} LeasesOnlyRetire(states: seq<Media>, c: Content, l: string, m: nat, n: nat)
    requires History(states, c) && m <= n < |states|
    ensures LeaseGoesOn(states[m], states[n], l)
  {
    if m < n {
      LeasesOnlyRetire(states, c, l, m, n - 1);
      assert MovesAt(states, c, n - 1);
      if states[n - 1] != states[n] {
        var e :| Step(states[n - 1], states[n], c, e);
        LeaseStep(states[n - 1], states[n], c, e, l);
      }
    }
  }

  /**
   Why requests on one upload must not overlap: a chunk is durable and another request, whose cursor
   is stale, cuts the file at size before the row moves. The cursor is backed exactly if nothing was cut.
   */
  lemma OverlappingTrim(m: Media, id: string, chunk: Bytes, size: nat)
    requires Receives(m, id) && RowChecks(m.uploads[id]) && CursorHolds(m, id)
    requires |m.files[id]| == m.uploads[id].received && m.uploads[id].received + |chunk| <= m.uploads[id].total
    requires size <= |m.files[id]| + |chunk|
    ensures CursorAt(Advanced(m.(files := m.files[id := (m.files[id] + chunk)[..size]]), id, chunk), id)
            <==> size == |m.files[id]| + |chunk|
  {
    var file := m.files[id] + chunk;
    if size == |file| {
      assert file[..size] == file && file[m.uploads[id].received..] == chunk;
      AcknowledgesChunk(m.(files := m.files[id := file]), id, chunk);
    }
  }

  class Service {
    var files: map<string, Bytes>
    var uploads: map<string, UploadRow>
    var leases: map<string, LeaseRow>
    ghost var chunks: map<string, seq<Bytes>>
    const c: Content

    ghost function M(): Media
      reads this
    {
      Media(files, uploads, leases, chunks)
    }

    constructor (c: Content)
      ensures this.c == c && Sound(M(), c)
    {
      this.c := c;
      files, uploads, leases, chunks := map[], map[], map[], map[];
    }

    // -------------------------------------------------------------- file effects

    /** Writes at exactly the expected offset; a failed or torn write leaves some prefix of the chunk. */
    method FileAppend(id: string, offset: int, chunk: Bytes, fate: Fate) returns (io: Io, ghost kept: nat)
      modifies `files
      ensures kept <= |chunk| && (io == Done ==> id in old(files) && |old(files)[id]| == offset && kept == |chunk|)
      ensures io == Done <==> fate.Fine? && id in old(files) && |old(files)[id]| == offset
      ensures files == if id in old(files) then old(files)[id := old(files)[id] + chunk[..kept]] else old(files)
    {
      kept := 0;
      if id !in files || |files[id]| != offset {
        assert id in files ==> files[id] + chunk[..0] == files[id];
        return Io.Failed, kept;
      }
      var n := if fate.Fine? || fate.partial > |chunk| then |chunk| else fate.partial;
      files := files[id := files[id] + chunk[..n]];
      return IoOf(fate), n;
    }

    /** Cuts a file back; it never grows one. */
    method FileTruncate(id: string, size: nat, fate: Fate) returns (io: Io)
      modifies `files
      ensures io == Done <==> fate.Fine? && id in old(files) && size <= |old(files)[id]|
      ensures io == Died ==> fate.Dies?
      ensures io == Done ==> files == old(files)[id := old(files)[id][..size]]
      ensures files == old(files) ||
              (id in old(files) && size <= |old(files)[id]| && files == old(files)[id := old(files)[id][..size]])
    {
      if id !in files || size > |files[id]| { return Io.Failed; }
      if FileEffect(fate) { files := files[id := files[id][..size]]; }
      io := IoOf(fate);
    }

    /** Removing an absent file is success. */
    method FileRemove(id: string, fate: Fate) returns (io: Io)
      modifies `files
      ensures io == IoOf(fate)
      ensures io == Done ==> files == old(files) - {id}
      ensures files == old(files) || files == old(files) - {id}
    {
      if FileEffect(fate) { files := files - {id}; }
      io := IoOf(fate);
    }

    // -------------------------------------------------------------- append

    /**
     Acknowledges a chunk at the cursor: trims a crash tail, makes the bytes durable, then moves the
     row's cursor. Whatever fails, the cursor moves by the whole chunk or not at all; it does not move
     when the upload has expired by `later`, which is a conflict.
     */
    method Append(install: string, id: string, offset: int, chunk: Bytes, max: int, now: int, later: int,
                  repair: Fate, write: Fate, advance: Fate, undo: Fate) returns (r: Result<int>)
      requires LeasesHold(M(), c)
      modifies `files, `uploads, `chunks
      ensures Keeps(old(M()), M(), c) && Moves(old(M()), M(), c)
      ensures var refusal := AppendRefusal(old(M()), install, id, offset, chunk, max, now);
              if !refusal.Ok? then r == Err(refusal.error) && M() == old(M())
              else
                && AppendOutcome(old(M()), M(), id, chunk, r)
                && (offset + |chunk| > refusal.value.total
                    ==> OnlyTail(old(M()), M(), id) && (repair.Fine? ==> r == Err(InvalidInput)))
                && (offset + |chunk| <= refusal.value.total && repair.Fine? && write.Fine? && advance.Fine?
                    ==> Advances(r, refusal.value, later, undo))
    {
      ghost var m := M();
      var refusal := Refuse(install, id, offset, chunk, max, now);
      if !refusal.Ok? { return Err(refusal.error); }
      assert RowAt(m, id);
      r := Stage(id, refusal.value, chunk, later, repair, write, advance, undo);
      Moved(m, M(), c, Appends(id, chunk, r));
    }

    method Stage(id: string, u: UploadRow, chunk: Bytes, later: int, repair: Fate, write: Fate, advance: Fate,
                 undo: Fate)
      returns (r: Result<int>)
      requires Receives(M(), id) && RowChecks(u) && uploads[id] == u && |chunk| > 0
      requires id in files && u.received <= |files[id]|
      modifies `files, `uploads, `chunks
      ensures AppendOutcome(old(M()), M(), id, chunk, r)
      ensures u.received + |chunk| > u.total
              ==> OnlyTail(old(M()), M(), id) && (repair.Fine? ==> r == Err(InvalidInput))
      ensures u.received + |chunk| <= u.total && repair.Fine? && write.Fine? && advance.Fine?
              ==> Advances(r, u, later, undo)
    {
      ghost var m := M();
      var io := Trim(id, u.received, repair);
      if io != Done { return if io == Died then Crashed else Err(Fault); }
      if u.received + |chunk| > u.total { return Err(InvalidInput); }
      ghost var w := M();
      r := Write(id, u, chunk, later, write, advance, undo);
      TailThenOutcome(m, w, M(), id, chunk, r);
    }

    /** Cuts the file back to the cursor when a crash left a tail behind it. */
    method Trim(id: string, size: nat, fate: Fate) returns (io: Io)
      requires Receives(M(), id) && RowChecks(uploads[id]) && uploads[id].received == size
      requires id in files && size <= |files[id]|
      modifies `files
      ensures (fate.Fine? ==> io == Done) && (io == Died ==> fate.Dies?)
      ensures OnlyTail(old(M()), M(), id) && (io == Done ==> |files[id]| == size)
    {
      ghost var m := M();
      io := Done;
      if |files[id]| > size {
        io := FileTruncate(id, size, fate);
      }
      assert files == m.files[id := files[id]];
    }

    /** Makes the bytes durable, then moves the cursor; a cursor that does not move leaves at most a tail. */
    method Write(id: string, u: UploadRow, chunk: Bytes, later: int, write: Fate, advance: Fate, undo: Fate)
      returns (r: Result<int>)
      requires Receives(M(), id) && RowChecks(u) && uploads[id] == u && u.received + |chunk| <= u.total
      requires id in files && |files[id]| == u.received
      modifies `files, `uploads, `chunks
      ensures write.Fine? && advance.Fine? ==> Advances(r, u, later, undo)
      ensures AppendOutcome(old(M()), M(), id, chunk, r)
    {
      ghost var m := M();
      var io;
      ghost var kept;
      io, kept := FileAppend(id, u.received, chunk, write);
      assert OnlyTail(m, M(), id);
      if io != Done { return if io == Died then Crashed else Err(Fault); }
      assert chunk[..kept] == chunk && m.files[id][..u.received] == m.files[id];
      if RowEffect(advance) && later < u.expiresAt {
        uploads := uploads[id := u.(received := u.received + |chunk|)];
        chunks := chunks[id := (if id in chunks then chunks[id] else []) + [chunk]];
        return if advance.Fine? then Ok(u.received + |chunk|) else Crashed;
      }
      if advance.Dies? { return Crashed; }
      io := Trim(id, u.received, undo);
      return if io == Died then Crashed else if advance.Fine? then Err(Conflict) else Err(Fault);
    }

    method Refuse(install: string, id: string, offset: int, chunk: Bytes, max: int, now: int)
      returns (r: Result<UploadRow>)
      ensures r == AppendRefusal(M(), install, id, offset, chunk, max, now)
    {
      if offset < 0 || |chunk| == 0 || |chunk| > max { return Err(InvalidInput); }
      r := Owned(install, id, now);
      if !r.Ok? { return; }
      if r.value.received != offset { return Err(Conflict); }
      if id !in files { return Err(Fault); }
      if |files[id]| < offset { return Err(Integrity); }
    }

    method Owned(install: string, id: string, now: int) returns (r: Result<UploadRow>)
      ensures r == OpenOwned(M(), install, id, now)
    {
      if |install| == 0 || |id| == 0 { return Err(InvalidInput); }
      if id !in uploads || uploads[id].install != install { return Err(NotFound); }
      if uploads[id].state != Receiving || now >= uploads[id].expiresAt { return Err(Conflict); }
      r := Ok(uploads[id]);
    }

    // -------------------------------------------------------------- create, complete, cancel

    method FileCreate(id: string, fate: Fate) returns (io: Io)
      modifies `files
      ensures io == Done <==> fate.Fine? && id !in old(files)
      ensures io == Done ==> files == old(files)[id := []]
      ensures files == old(files) || (id !in old(files) && files == old(files)[id := []])
    {
      if id in files { return Io.Failed; }
      if FileEffect(fate) { files := files[id := []]; }
      io := IoOf(fate);
    }

    /** A new empty upload: its file first, then its row; a row that cannot be written takes the file back. */
    method Create(row: UploadRow, id: string, acceptable: bool, max: int, make: Fate, insert: Fate, undo: Fate)
      returns (r: Result<string>)
      requires LeasesHold(M(), c) && row.received == 0 && row.state == Receiving
      modifies `files, `uploads, `chunks
      ensures Keeps(old(M()), M(), c) && Moves(old(M()), M(), c)
      ensures !acceptable || |row.install| == 0 || row.total <= 0 || row.total > max
              ==> r == Err(InvalidInput) && M() == old(M())
      ensures CreateOutcome(old(M()), M(), id, row, r.Ok?) ||
              (r.Crashed? && CreateOutcome(old(M()), M(), id, row, true))
      ensures r.Ok? <==> r == Ok(id)
    {
      if !acceptable || |row.install| == 0 || row.total <= 0 || row.total > max { return Err(InvalidInput); }
      ghost var m := M();
      var io := FileCreate(id, make);
      Moved(m, M(), c, Creates(id, row, false));
      if io != Done { return if io == Died then Crashed else Err(Fault); }
      if RowEffect(insert) && id !in uploads {
        uploads, chunks := uploads[id := row], chunks[id := []];
        Moved(m, M(), c, Creates(id, row, true));
        return if insert.Fine? then Ok(id) else Crashed;
      }
      if insert.Dies? { return Crashed; }
      io := FileRemove(id, undo);
      assert m.files[id := []] - {id} == m.files;
      Moved(m, M(), c, Creates(id, row, false));
      return if io == Died then Crashed else Err(Fault);
    }

    /**
     Verifies length, digest and type from the staged bytes, then seals the row and creates its one
     lease together, unless the upload has expired by `later`, when that transaction runs. The answer
     is the committed lease read again, so it may be an error all the same.
     */
    method Complete(install: string, id: string, leaseId: string, now: int, later: int, ttl: int, seal: Fate,
                    readBack: ReadBack)
      returns (r: Result<LeaseRow>)
      requires LeasesHold(M(), c)
      modifies `uploads, `leases
      ensures Keeps(old(M()), M(), c) && Moves(old(M()), M(), c)
      ensures var refusal := CompleteRefusal(old(M()), c, install, id, now, later + ttl);
              if !refusal.Ok? then r == Err(refusal.error) && M() == old(M())
              else
                var sealed := Sealed(old(M()), id, leaseId, refusal.value);
                var late, taken := later >= old(uploads)[id].expiresAt, leaseId in old(leases);
                if seal.Fine? && late then r == Err(Conflict) && M() == old(M())
                else if seal.Fine? && !taken then r == ReadAgain(refusal.value, readBack) && M() == sealed
                else
                  && r == (if seal.Dies? then Crashed else Err(Fault))
                  && (M() == old(M()) || (seal.Dies? && !late && !taken && M() == sealed))
    {
      ghost var m := M();
      var u := Owned(install, id, now);
      if u.Err? { return Err(u.error); }
      if u.Crashed? || u.value.received != u.value.total { return Err(Conflict); }
      if id !in files { return Err(Fault); }
      if |files[id]| != u.value.total || c.sha(files[id]) != u.value.sha { return Err(Integrity); }
      if c.mime(files[id]) != u.value.mime { return Err(Integrity); }
      var lease := LeaseRow(install, id, u.value.sha, u.value.mime, u.value.total, Active, later + ttl);
      if later >= u.value.expiresAt {
        return if seal.Fine? then Err(Conflict) else if seal.Dies? then Crashed else Err(Fault);
      }
      if RowEffect(seal) && leaseId !in leases {
        uploads, leases := uploads[id := u.value.(state := Completed)], leases[leaseId := lease];
        Moved(m, M(), c, Seals(install, id, leaseId, now, later + ttl));
        return if seal.Dies? then Crashed else ReadAgain(lease, readBack);
      }
      return if seal.Dies? then Crashed else Err(Fault);
    }

    /** Makes the upload unusable for good, then removes its bytes; a retry finishes an interrupted removal. */
    method Cancel(install: string, id: string, now: int, mark: Fate, remove: Fate) returns (r: Result<()>)
      requires LeasesHold(M(), c)
      modifies `uploads, `files
      ensures Keeps(old(M()), M(), c) && Moves(old(M()), M(), c)
      ensures |install| == 0 || |id| == 0 ==> r == Err(InvalidInput)
      ensures r.Ok? ==> id in old(uploads) && id !in files && Withdrawn(old(M()), M(), id, Aborted)
      ensures M() == old(M()) || (id in old(uploads) && Withdrawn(old(M()), M(), id, Aborted))
      ensures id in old(uploads) && id in uploads && old(uploads)[id].state == Completed ==> !r.Ok? && M() == old(M())
      ensures mark.Fine? && remove.Fine? && OpenOwned(old(M()), install, id, now).Ok? ==> r.Ok?
    {
      if |install| == 0 || |id| == 0 { return Err(InvalidInput); }
      if id !in uploads || uploads[id].install != install { return Err(NotFound); }
      ghost var m := M();
      if uploads[id].state != Aborted {
        if uploads[id].state != Receiving || now >= uploads[id].expiresAt { return Err(Conflict); }
        if RowEffect(mark) { uploads := uploads[id := uploads[id].(state := Aborted)]; }
        if mark.Fine? {
        } else {
          if M() != m { Moved(m, M(), c, Cancels(id)); }
          return if mark.Dies? then Crashed else Err(Fault);
        }
      }
      var io := FileRemove(id, remove);
      assert uploads == m.uploads[id := m.uploads[id].(state := Aborted)];
      Moved(m, M(), c, Cancels(id));
      r := if io == Done then Ok(()) else if io == Died then Crashed else Err(Fault);
    }

    // -------------------------------------------------------------- leases

    /** A live lease always opens on its whole declared object; anything else reads as absent. */
    method OpenLease(leaseId: string, now: int, tokenVerifies: bool) returns (r: Result<Bytes>)
      requires LeasesHold(M(), c)
      ensures r.Ok? <==>
        leaseId in leases && leases[leaseId].state == Active && now < leases[leaseId].expiresAt && tokenVerifies
      ensures r.Ok? ==> var lease := leases[leaseId];
                |r.value| == lease.size && c.sha(r.value) == lease.sha && c.mime(r.value) == lease.mime
      ensures !r.Ok? ==> r == Err(NotFound)
    {
      if leaseId !in leases || leases[leaseId].state != Active || now >= leases[leaseId].expiresAt || !tokenVerifies {
        return Err(NotFound);
      }
      assert LeaseAt(M(), c, leaseId);
      r := Ok(files[leases[leaseId].upload]);
    }

    /** Spends a lease before it expires; anybody else's, or one already retired, is left alone. */
    method RevokeLease(install: string, leaseId: string) returns (hit: bool)
      modifies `leases
      ensures Keeps(old(M()), M(), c) && Moves(old(M()), M(), c)
      ensures hit <==>
        leaseId in old(leases) && old(leases)[leaseId].install == install && old(leases)[leaseId].state == Active
      ensures leases == if hit then old(leases)[leaseId := old(leases)[leaseId].(state := Retired)] else old(leases)
    {
      ghost var m := M();
      hit := leaseId in leases && leases[leaseId].install == install && leases[leaseId].state == Active;
      if hit {
        leases := leases[leaseId := leases[leaseId].(state := Retired)];
        Moved(m, M(), c, Revokes(leaseId));
      }
    }

    // -------------------------------------------------------------- recovery

    /** One transaction expires what is due: uploads still receiving, and active leases. */
    method Lapse(now: int, fate: Fate) returns (io: Io)
      modifies `uploads, `leases
      ensures io == IoOf(fate) && Moves(old(M()), M(), c)
      ensures M() == if RowEffect(fate) then Lapsed(old(M()), now) else old(M())
    {
      ghost var m := M();
      if RowEffect(fate) {
        uploads := map id | id in uploads :: var u := uploads[id];
          if u.state == Receiving && u.expiresAt <= now then u.(state := Expired) else u;
        leases := map l | l in leases :: var lease := leases[l];
          if lease.state == Active && lease.expiresAt <= now then lease.(state := Retired) else lease;
        Moved(m, M(), c, Lapses(now));
      }
      io := IoOf(fate);
    }

    /** One open upload of the repair pass. */
    method Repair(id: string, fate: Fate) returns (io: Io)
      requires LeasesHold(M(), c) && Receives(M(), id)
      modifies `files, `uploads
      ensures Keeps(old(M()), M(), c) && Moves(old(M()), M(), c)
      ensures io == Done ==> Repaired(old(M()), M(), id)
      ensures fate.Fine? ==> io == Done
      ensures forall x :: x != id ==> SameAt(old(M()), M(), x)
      ensures uploads.Keys == old(uploads).Keys
    {
      ghost var m := M();
      var u := uploads[id];
      assert RowAt(m, id);
      if id !in files || |files[id]| < u.received {
        if RowEffect(fate) {
          uploads := uploads[id := u.(state := Expired)];
          Moved(m, M(), c, GivesUp(id));
        }
        return IoOf(fate);
      }
      io := Done;
      if |files[id]| > u.received {
        io := FileTruncate(id, u.received, fate);
        assert files == m.files[id := files[id]];
        if M() != m { Moved(m, M(), c, CutsBack(id)); }
      }
      assert io == Done ==> files[id] == m.files[id][..u.received];
    }

    /** One transaction finishes the removed upload's row, or its lease. */
    method AcknowledgeRemoved(id: string, fate: Fate) returns (io: Io)
      requires id in uploads
      modifies `uploads, `leases, `chunks
      ensures io == IoOf(fate)
      ensures M() == if RowEffect(fate) then Acknowledge(old(M()), id) else old(M())
    {
      if RowEffect(fate) {
        if uploads[id].state == Aborted || uploads[id].state == Expired {
          uploads, chunks := uploads - {id}, chunks - {id};
        } else {
          leases := map l | l in leases ::
            if leases[l].upload == id && leases[l].state == Retired then leases[l].(state := Deleted) else leases[l];
        }
      }
      io := IoOf(fate);
    }

    /** One removable upload of the cleanup pass: the bytes go first, then the row says so. */
    method Drop(id: string, remove: Fate, acknowledge: Fate) returns (io: Io)
      requires LeasesHold(M(), c) && Removable(M(), id)
      modifies `files, `uploads, `leases, `chunks
      ensures Keeps(old(M()), M(), c) && Moves(old(M()), M(), c)
      ensures io == Done ==> files == old(files) - {id} && M() == Acknowledge(old(M()), id).(files := files)
      ensures remove.Fine? && acknowledge.Fine? ==> io == Done
    {
      ghost var m := M();
      io := FileRemove(id, remove);
      if M() != m { Moved(m, M(), c, Drops(id, false)); }
      if io != Done { return; }
      ghost var w := M();
      io := AcknowledgeRemoved(id, acknowledge);
      if M() != w { Moved(m, M(), c, Drops(id, true)); }
    }

    /** The repair pass over every receiving upload; `fates` gives each one's. */
    method RepairAll(fates: nat -> Fate) returns (io: Io)
      requires LeasesHold(M(), c)
      modifies `files, `uploads
      ensures Keeps(old(M()), M(), c) && Reaches(old(M()), M(), c)
      ensures io == Done ==> AllRepaired(old(M()), M(), {})
      ensures (forall i :: fates(i).Fine?) ==> io == Done
    {
      ghost var m := M();
      var todo := set id | id in uploads && uploads[id].state == Receiving;
      var i: nat := 0;
      io := Done;
      ReachesItself(m, c);
      while todo != {}
        invariant io == Done && Keeps(m, M(), c) && Reaches(m, M(), c) && AllRepaired(m, M(), todo)
        decreases |todo|
      {
        var id :| id in todo;
        ghost var w := M();
        assert SameAt(m, w, id);
        io := Repair(id, fates(i));
        ReachesOn(m, w, M(), c);
        if io != Done { return; }
        RepairOneMore(m, w, M(), todo, id);
        todo, i := todo - {id}, i + 1;
      }
    }

    /** One more upload of the cleanup pass that began in state m. */
    method DropNext(ghost m: Media, ghost done: set<string>, id: string, remove: Fate, acknowledge: Fate)
      returns (io: Io)
      requires LeasesHold(m, c) && Keeps(m, M(), c) && Reaches(m, M(), c) && Dropped(m, M(), done)
      requires id in Candidates(m.uploads, m.leases) && id !in done
      modifies `files, `uploads, `leases, `chunks
      ensures Keeps(m, M(), c) && Reaches(m, M(), c)
      ensures io == Done ==> Dropped(m, M(), done + {id})
      ensures remove.Fine? && acknowledge.Fine? ==> io == Done
    {
      CandidatesAreRemovable(m, id);
      StillRemovable(m, M(), done, id);
      DropOneMore(m, c, M(), done, id);
      ghost var w := M();
      io := Drop(id, remove, acknowledge);
      ReachesOn(m, w, M(), c);
    }

    /** The cleanup pass over every removable upload. */
    method DropAll(removes: nat -> Fate, acknowledges: nat -> Fate) returns (io: Io, n: nat)
      requires LeasesHold(M(), c)
      modifies `files, `uploads, `leases, `chunks
      ensures Keeps(old(M()), M(), c) && Reaches(old(M()), M(), c)
      ensures io == Done ==> Dropped(old(M()), M(), Candidates(old(uploads), old(leases)))
      ensures io == Done ==> n == |Candidates(old(uploads), old(leases))|
      ensures (forall i :: removes(i).Fine? && acknowledges(i).Fine?) ==> io == Done
    {
      ghost var m := M();
      var ids := Candidates(uploads, leases);
      NothingDropped(m);
      ReachesItself(m, c);
      var todo, done := ids, {};
      io, n := Done, 0;
      while todo != {}
        invariant io == Done && Split(ids, todo, done) && n == |done|
        invariant Keeps(m, M(), c) && Reaches(m, M(), c) && Dropped(m, M(), done)
        decreases |todo|
      {
        var id :| id in todo;
        TakeOne(ids, todo, done, id);
        io := DropNext(m, done, id, removes(n), acknowledges(n));
        if io != Done { return; }
        todo, done, n := todo - {id}, done + {id}, n + 1;
      }
      AllTaken(ids, done);
    }

    /**
     Start-up and periodic recovery: lapse, repair, clean up. Whatever interrupts it, what held still
     holds; run to its end it leaves every receiving upload's file exactly at its cursor.
     */
    method Recover(now: int, lapse: Fate, repairs: nat -> Fate, removes: nat -> Fate, acknowledges: nat -> Fate)
      returns (r: Result<nat>)
      requires LeasesHold(M(), c)
      modifies `files, `uploads, `leases, `chunks
      ensures Keeps(old(M()), M(), c) && Reaches(old(M()), M(), c)
      ensures r.Ok? ==> Recovered(old(M()), M(), now)
      ensures lapse.Fine? && (forall i :: repairs(i).Fine? && removes(i).Fine? && acknowledges(i).Fine?) ==> r.Ok?
    {
      ghost var m := M();
      LapseKeeps(m, c, now);
      var io := Lapse(now, lapse);
      ghost var w := M();
      ReachesItself(m, c);
      ReachesOn(m, m, w, c);
      if io != Done { return if io == Died then Crashed else Err(Fault); }
      io := RepairAll(repairs);
      ReachesAlong(m, w, M(), c);
      if io != Done { return if io == Died then Crashed else Err(Fault); }
      ghost var v := M();
      var n;
      io, n := DropAll(removes, acknowledges);
      ReachesAlong(m, v, M(), c);
      if io != Done { return if io == Died then Crashed else Err(Fault); }
      RecoveredInStages(m, c, v, M(), now);
      r := Ok(n);
    }
  }

  predicate Split(ids: set<string>, todo: set<string>, done: set<string>) { done !! todo && done + todo == ids }

  lemma TakeOne(ids: set<string>, todo: set<string>, done: set<string>, id: string)
    requires Split(ids, todo, done) && id in todo
    ensures id in ids && id !in done && Split(ids, todo - {id}, done + {id}) && |done + {id}| == |done| + 1
  {
  }

  lemma AllTaken(ids: set<string>, done: set<string>)
    requires Split(ids, {}, done)
    ensures done == ids
  {
  }

  lemma RepairOneMore(m: Media, w: Media, n: Media, todo: set<string>, id: string)
    requires AllRepaired(m, w, todo) && id in todo && Receives(w, id) && Repaired(w, n, id)
    requires n.leases == w.leases && forall x :: x != id ==> SameAt(w, n, x)
    ensures AllRepaired(m, n, todo - {id})
  {
    assert SameAt(m, w, id);
    forall x | Receives(m, x) && x !in todo ensures Repaired(m, n, x) {
      assert Repaired(m, w, x) && SameAt(w, n, x);
    }
    forall x | !Receives(m, x) || x in todo - {id} ensures SameAt(m, n, x) {
      assert SameAt(m, w, x) && SameAt(w, n, x);
    }
  }
}
