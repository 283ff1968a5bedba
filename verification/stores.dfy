/** Write-once evidence stores: the in-memory and the file version, as one abstract map. Canonical JSON is
    taken to be a bijection, so a stored blob is identified with the record it renders. */
module EvidenceStores {
  import opened Text
  import opened Sorting
  import Gate

  type Record = Gate.Evidence

  datatype PutResult = Stored | Conflict | Refused

  // ----- The abstract store

  type Contents = map<string, Record>

  ghost predicate WellKeyed(c: Contents) {
    forall id | id in c :: c[id].releaseId == id
  }

  /** Write once: an identical record is accepted again, a different one conflicts, an invalid one is refused. */
  function PutSpec(c: Contents, ev: Record): (PutResult, Contents) {
    if !Gate.Valid(ev) then (Refused, c)
    else if ev.releaseId in c && c[ev.releaseId] != ev then (Conflict, c)
    else (Stored, c[ev.releaseId := ev])
  }

  function GetSpec(c: Contents, id: string): Option<Record> {
    if id in c then Some(c[id]) else None
  }

  function PutAll(c: Contents, evs: seq<Record>): Contents
    decreases |evs|
  {
    if evs == [] then c else PutAll(PutSpec(c, evs[0]).1, evs[1..])
  }

  /** Over every sequence of puts a stored record never changes; storing it again is accepted and changes nothing, and
      any other valid record under its id conflicts. */
  lemma {:induction false} StoredForGood(c: Contents, evs: seq<Record>, id: string)
    requires WellKeyed(c) && id in c
    ensures var c' := PutAll(c, evs); WellKeyed(c') && id in c' && c'[id] == c[id]
    ensures forall ev: Record | ev.releaseId == id && Gate.Valid(ev) ::
              PutSpec(PutAll(c, evs), ev) == (if ev == c[id] then Stored else Conflict, PutAll(c, evs))
    decreases |evs|
  {
    if evs != [] {
      StoredForGood(PutSpec(c, evs[0]).1, evs[1..], id);
    } else {
      assert c[id := c[id]] == c;
    }
  }

  /** Newest first; equal times by id. */
  function Newer(a: Record, b: Record): bool {
    if a.createdAt == b.createdAt then Less(a.releaseId, b.releaseId) else a.createdAt > b.createdAt
  }

  /** Every stored record, later ones first, those of one time by id. */
  ghost predicate IsListing(c: Contents, xs: seq<Record>) {
    && (forall x :: x in xs <==> x in c.Values)
    && (forall i, j | 0 <= i < j < |xs| ::
          || xs[i].createdAt > xs[j].createdAt
          || (xs[i].createdAt == xs[j].createdAt && Less(xs[i].releaseId, xs[j].releaseId)))
  }

  lemma NewerIsStrictWeak()
    ensures StrictWeak(Newer)
  {
    forall a: string, b: string
      ensures (Less(a, b) || a == b || Less(b, a)) && !(Less(a, b) && (a == b || Less(b, a)))
    {
      LessTotal(a, b);
    }
    forall a: string, b: string, c: string | Less(a, b) && Less(b, c) ensures Less(a, c) {
      LessTransitive(a, b, c);
    }
  }

  /** There is one listing, whatever order entries are met in. */
  lemma ListingUnique(c: Contents, xs: seq<Record>, ys: seq<Record>)
    requires IsListing(c, xs) && IsListing(c, ys)
    ensures xs == ys
  {
    NewerIsStrictWeak();
    StrictUnique(Newer, xs, ys);
  }

  lemma SortedIsListing(c: Contents, out: seq<Record>)
    requires WellKeyed(c) && (forall x :: x in out <==> x in c.Values)
    requires forall i, j | 0 <= i < j < |out| :: out[i].releaseId != out[j].releaseId
    ensures IsListing(c, Sort(Newer, out))
  {
    NewerIsStrictWeak();
    forall i, j | 0 <= i < j < |out| ensures Newer(out[i], out[j]) || Newer(out[j], out[i]) {
      LessTotal(out[i].releaseId, out[j].releaseId);
    }
    SortStrict(Newer, out);
    SortPermutes(Newer, out);
  }

  // ----- In memory

  class MemStore {
    var data: map<string, Record>

    constructor ()
      ensures data == map[] && Valid()
    {
      data := map[];
    }

    ghost predicate Valid()
      reads this
    {
      WellKeyed(data)
    }

    method Put(ev: Record) returns (r: PutResult)
      requires Valid()
      modifies this
      ensures Valid() && (r, data) == PutSpec(old(data), ev)
      // refused when invalid, a conflict when a different record is stored, and stored otherwise
      ensures r == Refused <==> !Gate.Valid(ev)
      ensures r == Conflict <==>
                Gate.Valid(ev) && ev.releaseId in old(data) && old(data)[ev.releaseId] != ev
      ensures data == if r == Stored then old(data)[ev.releaseId := ev] else old(data)
    {
      if !Gate.Valid(ev) {
        return Refused;
      }
      if ev.releaseId in data && data[ev.releaseId] != ev {
        return Conflict;
      }
      data := data[ev.releaseId := ev];
      return Stored;
    }

    method Get(id: string) returns (r: Option<Record>)
      ensures r == GetSpec(data, id) && r == if id in data then Some(data[id]) else None
    {
      if id !in data {
        return None;
      }
      return Some(data[id]);
    }

    method List() returns (out: seq<Record>)
      requires Valid()
      ensures IsListing(data, out)
    {
      var read, keys := Collect(data);
      forall x ensures x in read <==> x in data.Values {
        if x in data.Values {
          var k :| k in data && data[k] == x;
          var i :| 0 <= i < |keys| && keys[i] == k;
          assert read[i] == x;
        }
      }
      SortedIsListing(data, read);
      out := Sort(Newer, read);
    }
  }

  // ----- On files

  predicate SafeByte(b: Byte) {
    'a' as int <= b <= 'z' as int || 'A' as int <= b <= 'Z' as int || '0' as int <= b <= '9' as int
    || b == '-' as int || b == '_' as int || b == '.' as int
  }

  function Safe(bytes: seq<Byte>): (r: string)
    ensures |r| == |bytes| && forall i | 0 <= i < |bytes| ::
              r[i] == if SafeByte(bytes[i]) then bytes[i] as char else '_'
  {
    seq(|bytes|, i requires 0 <= i < |bytes| => if SafeByte(bytes[i]) then bytes[i] as char else '_')
  }

  /** The sanitized id: every byte of an unsafe character becomes an underscore of its own. */
  function FileToken(id: string): string {
    if id == "" then "release" else Safe(Utf8(id))
  }

  method SafeFileName(s: string) returns (r: string)
    ensures r == FileToken(s)
    ensures s == "" ==> r == "release"
    ensures s != "" ==>
              && |r| == |Utf8(s)|
              && forall i | 0 <= i < |r| ::
                   var b: int := Utf8(s)[i];
                   if 'a' as int <= b <= 'z' as int || 'A' as int <= b <= 'Z' as int || '0' as int <= b <= '9' as int
                      || b == '-' as int || b == '_' as int || b == '.' as int
                   then r[i] as int == b else r[i] == '_'
  {
    var bytes, b := Utf8(s), "";
    for i := 0 to |bytes|
      invariant b == Safe(bytes[..i])
    {
      assert bytes[..i + 1] == bytes[..i] + [bytes[i]];
      b := b + [if SafeByte(bytes[i]) then bytes[i] as char else '_'];
    }
    assert bytes[..|bytes|] == bytes;
    return if b == "" then "release" else b;
  }

  function Path(id: string): string {
    FileToken(id) + ".json"
  }

  /** Two ids share a file exactly when their tokens agree. */
  lemma PathsMeet(a: string, b: string)
    ensures Path(a) == Path(b) <==> FileToken(a) == FileToken(b)
  {
    assert Path(a)[..|FileToken(a)|] == FileToken(a) && Path(b)[..|FileToken(b)|] == FileToken(b);
  }

  /** An id that safeFileName leaves unchanged. */
  predicate Unchanged(id: string) {
    FileToken(id) == id
  }

  predicate SafeChar(c: char) {
    c as int < 0x80 && SafeByte(c as int)
  }

  /** Those are the ids of safe ASCII characters, but for the empty one. */
  lemma UnchangedExactlyWhen(id: string)
    ensures Unchanged(id) <==> id != "" && forall i | 0 <= i < |id| :: SafeChar(id[i])
  {
    if id != "" {
      if forall i | 0 <= i < |id| :: SafeChar(id[i]) {
        AsciiUtf8(id);
        assert FileToken(id) == id;
      }
      if Unchanged(id) {
        forall i | 0 <= i < |id| ensures SafeChar(id[i]) {
          assert id[i] == Safe(Utf8(id))[i];
        }
      }
    }
  }

  /** Only unchanged ids are stored. */
  ghost predicate Plain(files: map<string, Record>) {
    forall name | name in files :: Unchanged(files[name].releaseId)
  }

  ghost predicate WellNamed(files: map<string, Record>) {
    forall name | name in files :: name == Path(files[name].releaseId)
  }

  /** The stored records by release id. */
  ghost function ContentsOf(files: map<string, Record>): Contents {
    map id | id in (set name | name in files :: files[name].releaseId) && Path(id) in files :: files[Path(id)]
  }

  /** The id's file is not that of a different release. */
  ghost predicate Alone(files: map<string, Record>, id: string) {
    Path(id) in files ==> files[Path(id)].releaseId == id
  }

  lemma ContentsMeaning(files: map<string, Record>, id: string)
    requires WellNamed(files)
    ensures id in ContentsOf(files) <==> Path(id) in files && files[Path(id)].releaseId == id
    ensures id in ContentsOf(files) ==> ContentsOf(files)[id] == files[Path(id)]
    ensures WellKeyed(ContentsOf(files))
  {
    forall i | i in ContentsOf(files) ensures files[Path(i)].releaseId == i {
      var name :| name in files && files[name].releaseId == i;
    }
  }

  lemma MapGrows<T>(c: map<string, T>, c': map<string, T>, k: string, v: T)
    requires forall i :: i in c' <==> i in c || i == k
    requires forall i | i in c' :: c'[i] == if i == k then v else c[i]
    ensures c' == c[k := v]
  {
  }

  lemma NewName(files: map<string, Record>, ev: Record)
    requires WellNamed(files)
    ensures WellNamed(files[Path(ev.releaseId) := ev])
  {
  }

  /** What a new file adds. */
  lemma NewFileAt(files: map<string, Record>, ev: Record, id: string)
    requires WellNamed(files) && Path(ev.releaseId) !in files
    ensures var c, c' := ContentsOf(files), ContentsOf(files[Path(ev.releaseId) := ev]);
      (id in c' <==> id in c || id == ev.releaseId) && (id in c' ==> c'[id] == if id == ev.releaseId then ev else c[id])
  {
    NewName(files, ev);
    ContentsMeaning(files, id);
    ContentsMeaning(files[Path(ev.releaseId) := ev], id);
    hide ContentsOf, WellNamed, Path;
  }

  lemma NewFile(files: map<string, Record>, ev: Record)
    requires WellNamed(files) && Path(ev.releaseId) !in files
    ensures WellNamed(files[Path(ev.releaseId) := ev])
    ensures ContentsOf(files[Path(ev.releaseId) := ev]) == ContentsOf(files)[ev.releaseId := ev]
  {
    NewName(files, ev);
    hide ContentsOf, WellNamed, Path;
    var c, c' := ContentsOf(files), ContentsOf(files[Path(ev.releaseId) := ev]);
    forall id
      ensures id in c' <==> id in c || id == ev.releaseId
      ensures id in c' ==> c'[id] == if id == ev.releaseId then ev else c[id]
    {
      NewFileAt(files, ev, id);
    }
    MapGrows(c, c', ev.releaseId, ev);
  }

  lemma PlainGrows(files: map<string, Record>, ev: Record)
    requires Plain(files) && Unchanged(ev.releaseId)
    ensures Plain(files[Path(ev.releaseId) := ev])
  {
  }

  /** FileStore.Put on the directory: a file that cannot be read is taken for a missing one. */
  function PutFile(files: map<string, Record>, ev: Record, readFails: bool, writeFails: bool)
    : (Option<PutResult>, map<string, Record>)
  {
    var p := Path(ev.releaseId);
    if !Gate.Valid(ev) then (Some(Refused), files)
    else if p in files && !readFails then (Some(if files[p] != ev then Conflict else Stored), files)
    else if writeFails then (None, files)
    else (Some(Stored), files[p := ev])
  }

  /** Its cases, and what the directory holds afterwards. */
  lemma PutFileMeaning(files: map<string, Record>, ev: Record, readFails: bool, writeFails: bool)
    ensures var (r, files') := PutFile(files, ev, readFails, writeFails);
      var p := Path(ev.releaseId);
      && (r == Some(Refused) <==> !Gate.Valid(ev))
      && (r == Some(Conflict) <==> Gate.Valid(ev) && !readFails && p in files && files[p] != ev)
      && (r == None <==> Gate.Valid(ev) && writeFails && (readFails || p !in files))
      && files' == (if r == Some(Stored) then files[p := ev] else files)
  {
    hide Gate.Valid, Path;
    if Path(ev.releaseId) in files {
      SameEntry(files, Path(ev.releaseId));
    }
  }

  /** The put replaces a different record: only after a read that failed. */
  predicate Overwrites(files: map<string, Record>, ev: Record, readFails: bool, writeFails: bool) {
    && Gate.Valid(ev) && readFails && !writeFails
    && Path(ev.releaseId) in files && files[Path(ev.releaseId)] != ev
  }

  /** What is stored stays as it is, exactly unless the put overwrites. */
  lemma KeptExactlyWhen(files: map<string, Record>, ev: Record, readFails: bool, writeFails: bool)
    ensures var files' := PutFile(files, ev, readFails, writeFails).1;
      && files.Keys <= files'.Keys && (WellNamed(files) ==> WellNamed(files'))
      && ((forall name | name in files :: files'[name] == files[name])
          <==> !Overwrites(files, ev, readFails, writeFails))
  {
    NewNameFor(files, ev);
    hide Gate.Valid, Path, WellNamed;
  }

  lemma NewNameFor(files: map<string, Record>, ev: Record)
    ensures WellNamed(files) ==> WellNamed(files[Path(ev.releaseId) := ev])
  {
    if WellNamed(files) {
      NewName(files, ev);
    }
  }

  function GetFile(files: map<string, Record>, id: string): Option<Record> {
    if Path(id) in files then Some(files[Path(id)]) else None
  }

  /** A put and the faults it meets. */
  datatype FilePut = FilePut(ev: Record, readFails: bool, writeFails: bool)

  function PutAllFiles(files: map<string, Record>, puts: seq<FilePut>): map<string, Record>
    decreases |puts|
  {
    if puts == [] then files
    else PutAllFiles(PutFile(files, puts[0].ev, puts[0].readFails, puts[0].writeFails).1, puts[1..])
  }

  /** Over every sequence of puts a stored file never changes, as long as no read fails. */
  lemma {:induction false} FilesStoredForGood(files: map<string, Record>, puts: seq<FilePut>, name: string)
    requires name in files && forall i | 0 <= i < |puts| :: !puts[i].readFails
    ensures name in PutAllFiles(files, puts) && PutAllFiles(files, puts)[name] == files[name]
    decreases |puts|
  {
    hide PutFile;
    if puts == [] {
    } else {
      KeptExactlyWhen(files, puts[0].ev, puts[0].readFails, puts[0].writeFails);
      FilesStoredForGood(PutFile(files, puts[0].ev, puts[0].readFails, puts[0].writeFails).1, puts[1..], name);
    }
  }

  /** The id's file, if there is one, holds this very record. */
  ghost predicate Holds(files: map<string, Record>, ev: Record) {
    Path(ev.releaseId) in files ==> files[Path(ev.releaseId)] == ev
  }

  lemma PutOverFile(files: map<string, Record>, ev: Record)
    requires WellNamed(files) && Gate.Valid(ev) && Path(ev.releaseId) in files
    ensures var c := ContentsOf(files);
      Alone(files, ev.releaseId)
      <==> (if files[Path(ev.releaseId)] != ev then Conflict else Stored, c) == PutSpec(c, ev)
  {
    var c, id := ContentsOf(files), ev.releaseId;
    ContentsMeaning(files, id);
    hide Gate.Valid, ContentsOf, WellNamed;
    if Alone(files, id) {
      assert files[Path(id)] == ev ==> c[id := ev] == c;
    } else {
      assert id !in c && PutSpec(c, ev).0 == Stored;
    }
  }

  lemma PutNewFile(files: map<string, Record>, ev: Record)
    requires WellNamed(files) && Gate.Valid(ev) && Path(ev.releaseId) !in files
    ensures (Stored, ContentsOf(files[Path(ev.releaseId) := ev])) == PutSpec(ContentsOf(files), ev)
    ensures WellNamed(files[Path(ev.releaseId) := ev]) && Alone(files, ev.releaseId)
  {
    NewFile(files, ev);
    ContentsMeaning(files, ev.releaseId);
  }

  /** An overwritten record is gone: from its own entry if it was of the same release, and else from the contents. */
  lemma OverwriteLoses(files: map<string, Record>, ev: Record)
    requires WellNamed(files) && Gate.Valid(ev) && Path(ev.releaseId) in files && files[Path(ev.releaseId)] != ev
    ensures (Stored, ContentsOf(files[Path(ev.releaseId) := ev])) != PutSpec(ContentsOf(files), ev)
  {
    var former, files' := files[Path(ev.releaseId)], files[Path(ev.releaseId) := ev];
    NewName(files, ev);
    ContentsMeaning(files, ev.releaseId);
    ContentsMeaning(files, former.releaseId);
    ContentsMeaning(files', former.releaseId);
    assert Path(former.releaseId) == Path(ev.releaseId);
    hide ContentsOf, WellNamed, Gate.Valid, Path;
    if former.releaseId != ev.releaseId {
      assert former.releaseId in ContentsOf(files) && former.releaseId !in ContentsOf(files');
    }
  }

  /** A put that takes effect or is refused is that of the abstract store exactly when the file is not another
      release's and no failed read makes it overwrite. */
  lemma PutFileExactlyWhen(files: map<string, Record>, ev: Record, readFails: bool, writeFails: bool)
    requires WellNamed(files) && PutFile(files, ev, readFails, writeFails).0.Some?
    ensures var (r, files') := PutFile(files, ev, readFails, writeFails);
      (r.value, ContentsOf(files')) == PutSpec(ContentsOf(files), ev)
      <==> !Gate.Valid(ev) || (Alone(files, ev.releaseId) && (readFails ==> Holds(files, ev)))
  {
    hide Gate.Valid, ContentsOf, WellNamed, Path, PutSpec;
    PutRefuses(ContentsOf(files), ev);
    if Gate.Valid(ev) {
      var p := Path(ev.releaseId);
      if p !in files {
        PutNewFile(files, ev);
      } else {
        PutOverFile(files, ev);
        SameEntry(files, p);
        if files[p] == ev {
          assert Alone(files, ev.releaseId);
        } else {
          OverwriteLoses(files, ev);
        }
      }
    }
  }

  lemma SameEntry<T>(m: map<string, T>, k: string)
    requires k in m
    ensures m[k := m[k]] == m
  {
  }

  lemma PutRefuses(c: Contents, ev: Record)
    ensures !Gate.Valid(ev) ==> PutSpec(c, ev) == (Refused, c)
  {
  }

  /** The directory: one file per stored release, named after its id. */
  class FileStore {
    var files: map<string, Record>

    constructor ()
      ensures files == map[] && Valid()
    {
      files := map[];
    }

    ghost predicate Valid()
      reads this
    {
      WellNamed(files)
    }

    ghost function Contents(): Contents
      reads this
    {
      ContentsOf(files)
    }

    /** A put is that of the abstract store exactly while the file is not another release's, when the code reports a
        conflict although the id is new, and no failed read lets it overwrite a different record. */
    method Put(ev: Record, readFails: bool, writeFails: bool) returns (r: Option<PutResult>)
      requires Valid()
      modifies this
      ensures Valid() && (r, files) == PutFile(old(files), ev, readFails, writeFails)
      // refused when invalid, a conflict when a readable file holds a different record, and stored otherwise, unless
      // the write fails
      ensures r == Some(Refused) <==> !Gate.Valid(ev)
      ensures var p := FileToken(ev.releaseId) + ".json";
        && (r == Some(Conflict) <==> Gate.Valid(ev) && !readFails && p in old(files) && old(files)[p] != ev)
        && (r == None <==> Gate.Valid(ev) && writeFails && (readFails || p !in old(files)))
        && files == (if r == Some(Stored) then old(files)[p := ev] else old(files))
      // write once: no stored file changes, exactly unless a failed read lets it be overwritten
      ensures old(files.Keys) <= files.Keys
      ensures (forall name | name in old(files) :: files[name] == old(files)[name])
         <==> !Overwrites(old(files), ev, readFails, writeFails)
      ensures r.Some? ==>
                ((r.value, Contents()) == PutSpec(old(Contents()), ev)
                 <==> !Gate.Valid(ev) || (Alone(old(files), ev.releaseId) && (readFails ==> Holds(old(files), ev))))
      // over ids that safeFileName leaves unchanged it is that put
      ensures !readFails && Plain(old(files)) && Unchanged(ev.releaseId) ==>
                Plain(files) && (r.Some? ==> (r.value, Contents()) == PutSpec(old(Contents()), ev))
    {
      KeptExactlyWhen(files, ev, readFails, writeFails);
      PutFileMeaning(files, ev, readFails, writeFails);
      if PutFile(files, ev, readFails, writeFails).0.Some? {
        PutFileExactlyWhen(files, ev, readFails, writeFails);
      }
      if Plain(files) && Unchanged(ev.releaseId) {
        UnchangedIdsAreAlone(files, ev.releaseId);
        PlainGrows(files, ev);
      }
      hide Gate.Valid, ContentsOf, PutSpec, WellNamed, Alone, Unchanged, FileToken, Plain, Overwrites, Holds;
      if !Gate.Valid(ev) {
        return Some(Refused);
      }
      var token := SafeFileName(ev.releaseId);
      var p := token + ".json";
      assert p == Path(ev.releaseId);
      hide Path;
      if p in files && !readFails {
        return Some(if files[p] != ev then Conflict else Stored);
      }
      if writeFails {
        return None;
      }
      files := files[p := ev];
      return Some(Stored);
    }

    /** Likewise a get: right exactly when the file is not another release's. */
    method Get(id: string) returns (r: Option<Record>)
      requires Valid()
      ensures r == GetFile(files, id)
      ensures r == GetSpec(Contents(), id) <==> Alone(files, id)
      ensures Plain(files) && Unchanged(id) ==> r == GetSpec(Contents(), id)
    {
      ContentsMeaning(files, id);
      if Plain(files) && Unchanged(id) {
        UnchangedIdsAreAlone(files, id);
      }
      hide ContentsOf, Unchanged, FileToken;
      var token := SafeFileName(id);
      var p := token + ".json";
      if p !in files {
        return None;
      }
      return Some(files[p]);
    }

    method List() returns (out: seq<Record>)
      requires Valid()
      ensures IsListing(Contents(), out)
    {
      var read, keys := Collect(files);
      ReadMeansContents(files, read, keys);
      SortedIsListing(Contents(), read);
      out := Sort(Newer, read);
    }
  }

  lemma ReadMeansContents(files: map<string, Record>, read: seq<Record>, keys: seq<string>)
    requires WellNamed(files) && |read| == |keys| && forall k :: k in keys <==> k in files
    requires forall i | 0 <= i < |keys| :: keys[i] in files && read[i] == files[keys[i]]
    ensures forall x :: x in read <==> x in ContentsOf(files).Values
    ensures WellKeyed(ContentsOf(files))
  {
    ContentsMeaning(files, "");
    forall x ensures x in read <==> x in ContentsOf(files).Values {
      if x in read {
        var i :| 0 <= i < |read| && read[i] == x;
        ContentsMeaning(files, x.releaseId);
        assert ContentsOf(files)[x.releaseId] == x;
      }
      if x in ContentsOf(files).Values {
        var id :| id in ContentsOf(files) && ContentsOf(files)[id] == x;
        ContentsMeaning(files, id);
        var i :| 0 <= i < |keys| && keys[i] == Path(id);
        assert read[i] == x;
      }
    }
  }

  /** Over ids that safeFileName leaves unchanged no two releases share a file. */
  lemma UnchangedIdsAreAlone(files: map<string, Record>, id: string)
    requires WellNamed(files) && Unchanged(id) && Plain(files)
    ensures Alone(files, id)
  {
    if Path(id) in files {
      PathsMeet(id, files[Path(id)].releaseId);
    }
  }

  /** Otherwise they can: a record stored for "a/b" is handed out for "a_b", and one for an accented letter, which is
      two bytes, for two underscores. */
  lemma OtherIdsCanMeet(ev: Record, accented: Record)
    requires ev.releaseId == "a/b" && accented.releaseId == "\U{E9}"
    ensures var files := map[Path("a/b") := ev]; WellNamed(files) && !Alone(files, "a_b")
    ensures var files := map[Path("\U{E9}") := accented]; WellNamed(files) && !Alone(files, "__")
  {
    AsciiUtf8("a/b");
    AsciiUtf8("a_b");
    AsciiUtf8("__");
    assert Safe(Utf8("a/b")) == "a_b" == Safe(Utf8("a_b"));
    assert "\U{E9}"[1..] == "" && Utf8("\U{E9}") == [0xC3, 0xA9];
    assert Safe(Utf8("\U{E9}")) == "__" == Safe(Utf8("__"));
    assert "a/b"[1] != "a_b"[1] && |"\U{E9}"| != |"__"|;
  }

  // ----- Both stores side by side

  /** Every stored record is of one of the releases `ids`. */
  ghost predicate Within(files: map<string, Record>, ids: iset<string>) {
    forall name | name in files :: files[name].releaseId in ids
  }

  /** No two of the releases share a file. */
  ghost predicate NoSharedToken(ids: iset<string>) {
    forall a, b | a in ids && b in ids && FileToken(a) == FileToken(b) :: a == b
  }

  lemma UnchangedShareNothing()
    ensures NoSharedToken(iset id | Unchanged(id))
  {
  }

  lemma AloneWithin(files: map<string, Record>, ids: iset<string>, id: string)
    requires WellNamed(files) && Within(files, ids) && NoSharedToken(ids) && id in ids
    ensures Alone(files, id)
  {
    if Path(id) in files {
      PathsMeet(id, files[Path(id)].releaseId);
    }
  }

  /** The store behaves like the map for the releases `ids`: same contents, hence same listing, same gets and same
      puts. */
  ghost predicate Agree(files: map<string, Record>, c: Contents, ids: iset<string>) {
    && ContentsOf(files) == c
    && (forall id | id in ids :: GetFile(files, id) == GetSpec(c, id))
    && (forall ev: Record | ev.releaseId in ids :: PutFile(files, ev, false, false).0 == Some(PutSpec(c, ev).0))
  }

  ghost predicate OverIds(evs: seq<Record>, ids: iset<string>) {
    forall i | 0 <= i < |evs| :: evs[i].releaseId in ids
  }

  function Undisturbed(evs: seq<Record>): (puts: seq<FilePut>)
    ensures |puts| == |evs| && forall i | 0 <= i < |evs| :: puts[i] == FilePut(evs[i], false, false)
  {
    seq(|evs|, i requires 0 <= i < |evs| => FilePut(evs[i], false, false))
  }

  /** One undisturbed put keeps directory and map in step. */
  lemma PutInStep(files: map<string, Record>, ids: iset<string>, ev: Record)
    requires WellNamed(files) && Within(files, ids) && NoSharedToken(ids) && ev.releaseId in ids
    ensures var (r, files') := PutFile(files, ev, false, false);
      && r.Some? && (r.value, ContentsOf(files')) == PutSpec(ContentsOf(files), ev)
      && WellNamed(files') && Within(files', ids)
  {
    AloneWithin(files, ids, ev.releaseId);
    PutFileExactlyWhen(files, ev, false, false);
    KeptExactlyWhen(files, ev, false, false);
    hide Gate.Valid, ContentsOf, WellNamed, Path, PutSpec, Alone, NoSharedToken;
  }

  lemma GetInStep(files: map<string, Record>, ids: iset<string>, id: string)
    requires WellNamed(files) && Within(files, ids) && NoSharedToken(ids) && id in ids
    ensures GetFile(files, id) == GetSpec(ContentsOf(files), id)
  {
    AloneWithin(files, ids, id);
    ContentsMeaning(files, id);
    hide ContentsOf, WellNamed, Path, NoSharedToken, Within;
  }

  lemma {:induction false} StaysInStep(files: map<string, Record>, ids: iset<string>, evs: seq<Record>)
    requires WellNamed(files) && Within(files, ids) && NoSharedToken(ids) && OverIds(evs, ids)
    ensures var files' := PutAllFiles(files, Undisturbed(evs));
      && ContentsOf(files') == PutAll(ContentsOf(files), evs) && WellNamed(files') && Within(files', ids)
    decreases |evs|
  {
    hide ContentsOf, WellNamed, Within, NoSharedToken, PutFile, PutSpec;
    if evs == [] {
    } else {
      PutInStep(files, ids, evs[0]);
      assert Undisturbed(evs)[1..] == Undisturbed(evs[1..]);
      StaysInStep(PutFile(files, evs[0], false, false).1, ids, evs[1..]);
    }
  }

  lemma AgreesWithin(files: map<string, Record>, ids: iset<string>)
    requires WellNamed(files) && Within(files, ids) && NoSharedToken(ids)
    ensures Agree(files, ContentsOf(files), ids)
  {
    hide ContentsOf, WellNamed, Within, NoSharedToken, PutFile, PutSpec, GetFile, GetSpec;
    forall id | id in ids ensures GetFile(files, id) == GetSpec(ContentsOf(files), id) {
      GetInStep(files, ids, id);
    }
    forall ev: Record | ev.releaseId in ids
      ensures PutFile(files, ev, false, false).0 == Some(PutSpec(ContentsOf(files), ev).0)
    {
      PutInStep(files, ids, ev);
    }
  }

  /** A valid record for the given release. */
  lemma SomeRecord(id: string) returns (ev: Record)
    requires Gate.Filled(id)
    ensures ev.releaseId == id && Gate.Valid(ev)
  {
    ev := Gate.CleanRecord();
    ev := ev.(releaseId := id);
    hide Gate.Filled, Gate.LooksLikeCommitSha;
  }

  /** Storing a record makes the store answer for a release that shares its file. */
  lemma SharedTokenDisagrees(ids: iset<string>, a: string, b: string) returns (evs: seq<Record>)
    requires a in ids && b in ids && a != b && FileToken(a) == FileToken(b) && Gate.Filled(a)
    ensures OverIds(evs, ids) && !Agree(PutAllFiles(map[], Undisturbed(evs)), PutAll(map[], evs), ids)
  {
    var ev := SomeRecord(a);
    evs := [ev];
    OnePut(map[], map[], ev);
    var files, c := PutAllFiles(map[], Undisturbed(evs)), PutAll(map[], evs);
    hide PutAllFiles, PutAll, Gate.Valid, ContentsOf;
    assert b !in c && Path(b) in files by {
      assert Path(b) == Path(a);
    }
    assert GetFile(files, b) != GetSpec(c, b);
    hide GetFile, GetSpec;
  }

  lemma OnePut(files: map<string, Record>, c: Contents, ev: Record)
    ensures PutAllFiles(files, Undisturbed([ev])) == PutFile(files, ev, false, false).1
    ensures PutAll(c, [ev]) == PutSpec(c, ev).1
  {
    var puts := Undisturbed([ev]);
    assert puts[0] == FilePut(ev, false, false) && puts[1..] == [] && [ev][1..] == [];
    assert PutAllFiles(PutFile(files, ev, false, false).1, []) == PutFile(files, ev, false, false).1;
    assert PutAll(PutSpec(c, ev).1, []) == PutSpec(c, ev).1;
    hide PutFile, PutSpec;
  }

  /** For any set of storable ids: whatever is put, both stores answer alike exactly when no two of the ids share a
      file. */
  lemma StoresAgreeExactlyWhen(ids: iset<string>)
    requires forall id | id in ids :: Gate.Filled(id)
    ensures (forall evs | OverIds(evs, ids) :: Agree(PutAllFiles(map[], Undisturbed(evs)), PutAll(map[], evs), ids))
       <==> NoSharedToken(ids)
  {
    if NoSharedToken(ids) {
      assert ContentsOf(map[]) == map[];
      forall evs | OverIds(evs, ids) ensures Agree(PutAllFiles(map[], Undisturbed(evs)), PutAll(map[], evs), ids) {
        StaysInStep(map[], ids, evs);
        AgreesWithin(PutAllFiles(map[], Undisturbed(evs)), ids);
      }
    } else {
      var a, b :| a in ids && b in ids && FileToken(a) == FileToken(b) && a != b;
      var evs := SharedTokenDisagrees(ids, a, b);
    }
  }

  datatype Op = Put(ev: Record) | Get(id: string) | List

  datatype Answer = PutAnswer(result: PutResult) | GetAnswer(found: Option<Record>) | ListAnswer(all: seq<Record>)

  /** The operation is about one of the releases `ids`. */
  ghost predicate About(op: Op, ids: iset<string>) {
    match op
    case Put(ev) => ev.releaseId in ids
    case Get(id) => id in ids
    case List => true
  }

  method AskMem(store: MemStore, op: Op) returns (a: Answer)
    requires store.Valid()
    modifies store
    ensures store.Valid() && Explains(old(store.data), op, a, store.data)
  {
    match op {
      case Put(ev) =>
        var r := store.Put(ev);
        a := PutAnswer(r);
      case Get(id) =>
        var r := store.Get(id);
        a := GetAnswer(r);
      case List =>
        var r := store.List();
        a := ListAnswer(r);
    }
  }

  method AskFile(store: FileStore, op: Op, ghost ids: iset<string>) returns (a: Answer)
    requires store.Valid() && Within(store.files, ids) && NoSharedToken(ids) && About(op, ids)
    modifies store
    ensures store.Valid() && Within(store.files, ids)
    ensures Explains(old(store.Contents()), op, a, store.Contents())
  {
    hide ContentsOf, WellNamed, Within, NoSharedToken, Plain, Unchanged, PutSpec, PutFile, GetFile, Alone, Overwrites;
    match op {
      case Put(ev) =>
        PutInStep(store.files, ids, ev);
        var r := store.Put(ev, false, false);
        a := PutAnswer(r.value);
      case Get(id) =>
        GetInStep(store.files, ids, id);
        var r := store.Get(id);
        a := GetAnswer(r);
      case List =>
        var r := store.List();
        a := ListAnswer(r);
    }
  }

  /** The answer and the new contents are those of the write-once map. */
  ghost predicate Explains(c: Contents, op: Op, a: Answer, c': Contents) {
    match op
    case Put(ev) => a.PutAnswer? && (a.result, c') == PutSpec(c, ev)
    case Get(id) => a == GetAnswer(GetSpec(c, id)) && c' == c
    case List => a.ListAnswer? && IsListing(c, a.all) && c' == c
  }

  lemma ExplainsOne(c: Contents, op: Op, a: Answer, c1: Contents, b: Answer, c2: Contents)
    requires Explains(c, op, a, c1) && Explains(c, op, b, c2)
    ensures a == b && c1 == c2
  {
    if op.List? {
      ListingUnique(c, a.all, b.all);
    }
  }

  /** Any puts, gets and lists over releases that share no files, such as those with unchanged ids, are answered alike
      by both stores. */
  method AskBoth(mem: MemStore, file: FileStore, ops: seq<Op>, ghost ids: iset<string>)
    returns (fromMem: seq<Answer>, fromFile: seq<Answer>)
    requires mem.Valid() && file.Valid() && Within(file.files, ids) && mem.data == file.Contents()
    requires NoSharedToken(ids) && forall i | 0 <= i < |ops| :: About(ops[i], ids)
    modifies mem, file
    ensures fromMem == fromFile && |fromMem| == |ops|
    ensures mem.Valid() && file.Valid() && Within(file.files, ids) && mem.data == file.Contents()
  {
    hide ContentsOf, WellNamed, WellKeyed, Within, NoSharedToken, About, Explains;
    fromMem, fromFile := [], [];
    for i := 0 to |ops|
      invariant fromMem == fromFile && |fromMem| == i
      invariant mem.Valid() && file.Valid() && Within(file.files, ids) && mem.data == file.Contents()
    {
      ghost var c := mem.data;
      var a := AskMem(mem, ops[i]);
      ghost var c' := mem.data;
      var b := AskFile(file, ops[i], ids);
      ExplainsOne(c, ops[i], a, c', b, file.Contents());
      fromMem, fromFile := fromMem + [a], fromFile + [b];
    }
  }
}
