/**
 What a run of commits keeps: the directory always folds to the last committed
 issues, and every file only grows (`commit`, `crates/vissue-core/src/ledger.rs`).
 */
module LedgerCommit {
  import opened Base
  import opened Text
  import opened Issue
  import opened Records
  import opened Ledger
  import opened LedgerLaws
  import opened LedgerStore

  // ---- looking a heading up by id and by file ----

  lemma {:induction false} WantFacts(doc: seq<Heading>, id: string)
    ensures var w := WantAt(doc, id); w.Some? ==> w.value in doc && w.value.id == id
    ensures WantAt(doc, id).None? <==> forall h :: h in doc ==> h.id != id
  {
    if doc != [] {
      WantFacts(doc[1..], id);
      assert forall h :: h in doc <==> h == doc[0] || h in doc[1..];
    }
  }

  lemma {:induction false} OwnerFacts(doc: seq<Heading>, name: string)
    ensures var w := OwnerOf(doc, name); w.Some? ==> w.value in doc && FileName(w.value.id) == name
    ensures OwnerOf(doc, name).None? <==> forall h :: h in doc ==> FileName(h.id) != name
  {
    hide FileName;
    if doc != [] {
      OwnerFacts(doc[1..], name);
      assert forall h :: h in doc <==> h == doc[0] || h in doc[1..];
    }
  }

  lemma {:induction false} OwnerIsWant(doc: seq<Heading>, id: string)
    requires IsBytes(id) && forall h :: h in doc ==> IsBytes(h.id)
    ensures OwnerOf(doc, FileName(id)) == WantAt(doc, id)
  {
    hide FileName, IsBytes;
    if doc != [] {
      assert doc[0] in doc;
      if FileName(doc[0].id) == FileName(id) {
        FileNameInjective(doc[0].id, id);
      }
      OwnerIsWant(doc[1..], id);
    }
  }

  // ---- one file ----

  /// What a commit makes of a fold: what arrives live, or nothing live.
  predicate Became(g: Folded, arrived: Option<Heading>) {
    match arrived
    case Some(h) => !g.tombstoned && SameFields(g.heading, h)
    case None => g.tombstoned
  }

  lemma ReplaceOp(f: Folded, payload: string, read: Reader)
    requires read(payload).Some?
    ensures FoldRecords(f, [Record("replace", payload)], read)
         == Some(f.(tombstoned := false,
                    heading := read(payload).value.(lineStart := f.heading.lineStart, lineEnd := f.heading.lineEnd)))
  {
    hide FoldRecords, LinesOf, SplitDrawers, ParseLines, LogLine.Parse, EncodeOne;
    FoldOne(f, Record("replace", payload), read);
  }

  lemma TombstoneOp(f: Folded, read: Reader)
    ensures FoldRecords(f, [Record("tombstone", "")], read) == Some(f.(tombstoned := true))
  {
    hide FoldRecords, LinesOf, SplitDrawers, ParseLines, LogLine.Parse, EncodeOne;
    FoldOne(f, Record("tombstone", ""), read);
  }

  lemma RecordsForFold(c: Codec, f: Folded, want: Option<Heading>) returns (g: Folded)
    requires Keeps(f, f.heading.id) && (want.Some? ==> want.value.id == f.heading.id)
    requires want.Some? && f.tombstoned ==> ReadsAs(c.readReplace(c.render(want.value)), f.heading.id)
    requires want.Some? && !f.tombstoned ==> CarriedOver(f.heading, want.value) && ReadsAs(want, f.heading.id)
    ensures FoldRecords(f, RecordsFor(c, f, want), c.readReplace) == Some(g)
    ensures Keeps(g, f.heading.id) && AllWritable(RecordsFor(c, f, want))
    ensures Became(g, if want.Some? && f.tombstoned then c.readReplace(c.render(want.value)) else want)
  {
    hide FoldRecords, Diff, OneLine, WellFormedDrawer, LogLine.ReadEntry, PlainLine;
    if want.Some? && f.tombstoned {
      var h := want.value;
      ReplaceOp(f, c.render(h), c.readReplace);
      g := f.(tombstoned := false, heading := c.readReplace(c.render(h)).value.(lineStart := f.heading.lineStart, lineEnd := f.heading.lineEnd));
    } else if want.Some? {
      g := DiffThenFold(f, want.value, c.readReplace);
      DiffWritable(f.heading, want.value);
    } else if f.tombstoned {
      FoldNone(f, c.readReplace);
      g := f;
    } else {
      TombstoneOp(f, c.readReplace);
      g := f.(tombstoned := true);
    }
  }

  lemma GoodFileReads(c: Codec, name: string, text: string) returns (f: Folded)
    requires GoodFile(c, name, text)
    ensures ReadFile(c, text) == Some(f)
    ensures IsBytes(f.heading.id) && name == FileName(f.heading.id) && Keeps(f, f.heading.id)
  {
    hide Occurs, FoldRecords, Encode, ReadFile, AllWritable, Keeps, IsBytes, FileName;
    var left, rs, h, g :| FileParts(c, name, text, left, rs, h, g);
    FilePartsRead(c, name, text, left, rs, h, g);
    f := g;
  }

  /// What a commit makes of the file `name`.
  function Arrived(c: Codec, preamble: string, files: Files, doc: seq<Heading>, name: string): Option<Heading> {
    match OwnerOf(doc, name)
    case None => None
    case Some(h) => Arrival(c, preamble, files, h)
  }

  /// A commit on a file that was there.
  lemma OldFileCommitted(c: Codec, preamble: string, files: Files, name: string, doc: seq<Heading>) returns (g: Folded)
    requires name in files && GoodFile(c, name, files[name]) && GoodCommit(c, preamble, files, doc)
    ensures var after := AppendedTo(c, files[name], doc);
      && GoodFile(c, name, after) && ReadFile(c, after) == Some(g) && files[name] <= after
    ensures Became(g, Arrived(c, preamble, files, doc, name))
  {
    var f := GoodFileReads(c, name, files[name]);
    hide GoodFile, FoldRecords, Encode, ReadFile, AllWritable, Keeps, IsBytes, FileName, RecordsFor, CarriedOver, ReadsAs, Occurs, HeaderLeft;
    OwnerIsWant(doc, f.heading.id);
    var want := WantAt(doc, f.heading.id);
    WantFacts(doc, f.heading.id);
    if want.Some? {
      assert Acceptable(c, preamble, files, want.value);
    }
    g := RecordsForFold(c, f, want);
    AppendKeepsGood(c, name, files[name], RecordsFor(c, f, want), g);
  }

  /// A file the commit makes.
  lemma NewFileCommitted(c: Codec, preamble: string, files: Files, h: Heading) returns (g: Folded)
    requires FileName(h.id) !in files && IsBytes(h.id) && Acceptable(c, preamble, files, h)
    ensures var text := HeaderText(preamble, c.render(h));
      GoodFile(c, FileName(h.id), text) && ReadFile(c, text) == Some(g)
    ensures Became(g, Arrival(c, preamble, files, h))
  {
    var left := HeaderLeft(preamble, c.render(h));
    hide Occurs, FoldRecords, ReadFile, HeaderLeft, OneLine, IsBytes, FileName, CarriedOver;
    var r := c.readFile(left).value;
    g := Folded(r, false, []);
    FoldNone(g, c.readReplace);
    assert left + LOG_MARK + "" == left + LOG_MARK;
    assert FileParts(c, FileName(h.id), left + LOG_MARK + Encode([]), left, [], r, g);
    FilePartsRead(c, FileName(h.id), left + LOG_MARK + Encode([]), left, [], r, g);
  }

  // ---- the directory ----

  /// The live issue of a file.
  function LoadedAs(c: Codec, files: Files, name: string): Option<Heading> {
    if name !in files || !Listed(name) then None
    else
      match ReadFile(c, files[name])
      case None => None
      case Some(f) => if f.tombstoned then None else Some(f.heading)
  }

  predicate SameLoad(x: Option<Heading>, y: Option<Heading>) {
    (x.Some? <==> y.Some?) && (x.Some? ==> SameFields(x.value, y.value))
  }

  /// The directory folds to the issues of `doc`, each under its own file, and
  /// to nothing else.
  ghost predicate Represents(c: Codec, files: Files, doc: seq<Heading>) {
    forall name :: SameLoad(LoadedAs(c, files, name), OwnerOf(doc, name))
  }

  /// The directory folds to what a commit of `doc` onto `before` brings, each
  /// issue under its own file, and to nothing else.
  ghost predicate Brought(c: Codec, preamble: string, before: Files, after: Files, doc: seq<Heading>) {
    forall name :: SameLoad(LoadedAs(c, after, name), Arrived(c, preamble, before, doc, name))
  }

  /// No file is removed and every text goes on from what it was.
  predicate Grows(before: Files, after: Files) {
    forall name :: name in before ==> name in after && before[name] <= after[name]
  }

  lemma NameCommitted(c: Codec, preamble: string, files: Files, doc: seq<Heading>, name: string)
    requires GoodDir(c, files) && GoodCommit(c, preamble, files, doc)
    ensures var after := Committed(c, preamble, files, doc);
      && (name in after && Listed(name) ==> GoodFile(c, name, after[name]))
      && SameLoad(LoadedAs(c, after, name), Arrived(c, preamble, files, doc, name))
      && (name in files ==> name in after && files[name] <= after[name])
  {
    hide GoodFile, ReadFile, FileName, Listed, AppendedTo, HeaderText, SameFields, Acceptable, Arrival, IsBytes;
    OwnerFacts(doc, name);
    if !Listed(name) {
      UnlistedArrives(c, preamble, files, doc, name);
    } else if name in files {
      var g := OldFileCommitted(c, preamble, files, name, doc);
    } else {
      var h := OwnerOf(doc, name);
      if h.Some? {
        assert name in NewNames(files, doc);
        var g := NewFileCommitted(c, preamble, files, h.value);
        ArrivalIsRead(c, preamble, files, h.value);
      } else {
        assert name !in NewNames(files, doc);
      }
    }
  }

  lemma UnlistedArrives(c: Codec, preamble: string, files: Files, doc: seq<Heading>, name: string)
    requires !Listed(name)
    ensures Arrived(c, preamble, files, doc, name).None?
  {
    hide FileName, Listed, ReadFile;
    OwnerFacts(doc, name);
  }

  lemma ArrivalIsRead(c: Codec, preamble: string, files: Files, h: Heading)
    requires Acceptable(c, preamble, files, h)
    ensures Arrival(c, preamble, files, h).Some?
  {
    hide Arrival, Occurs, CarriedOver;
  }

  /**
   A commit leaves a directory that folds to what it brings: each issue of a
   live file exactly, each new or returned one as its written text reads, the
   removed ones gone; and every file goes on from what it was.
   */
  lemma CommitRefines(c: Codec, preamble: string, files: Files, doc: seq<Heading>)
    requires GoodDir(c, files) && GoodCommit(c, preamble, files, doc)
    ensures var after := Committed(c, preamble, files, doc);
      GoodDir(c, after) && Brought(c, preamble, files, after, doc) && Grows(files, after)
  {
    hide GoodCommit, GoodFile, LoadedAs, Arrived, Committed, SameLoad;
    var after := Committed(c, preamble, files, doc);
    forall name
      ensures name in after && Listed(name) ==> GoodFile(c, name, after[name])
      ensures SameLoad(LoadedAs(c, after, name), Arrived(c, preamble, files, doc, name))
      ensures name in files ==> name in after && files[name] <= after[name]
    {
      NameCommitted(c, preamble, files, doc, name);
    }
  }

  /// Where every text written in full reads back to its issue, the directory
  /// folds to exactly the committed issues.
  lemma ExactTextsAreRepresented(c: Codec, preamble: string, before: Files, after: Files, doc: seq<Heading>)
    requires Brought(c, preamble, before, after, doc)
    ensures Represents(c, after, doc) <==>
      forall name :: SameLoad(Arrived(c, preamble, before, doc, name), OwnerOf(doc, name))
  {
    hide LoadedAs, Arrived, OwnerOf;
    forall name
      ensures SameLoad(LoadedAs(c, after, name), OwnerOf(doc, name))
        <==> SameLoad(Arrived(c, preamble, before, doc, name), OwnerOf(doc, name))
    {
      assert SameLoad(LoadedAs(c, after, name), Arrived(c, preamble, before, doc, name));
    }
  }

  function Committing(c: Codec, preamble: string, files: Files, docs: seq<seq<Heading>>): Files
    decreases |docs|
  {
    if docs == [] then files else Committing(c, preamble, Committed(c, preamble, files, docs[0]), docs[1..])
  }

  /// Each commit of a run can be taken where it comes.
  ghost predicate GoodRun(c: Codec, preamble: string, files: Files, docs: seq<seq<Heading>>)
    decreases |docs|
  {
    docs == [] || (GoodCommit(c, preamble, files, docs[0]) && GoodRun(c, preamble, Committed(c, preamble, files, docs[0]), docs[1..]))
  }

  /// Every run of commits: the directory folds to what the last one brought,
  /// and every file of every moment before is a front of itself.
  lemma {:induction false} EveryRunRefines(c: Codec, preamble: string, files: Files, docs: seq<seq<Heading>>)
    requires GoodDir(c, files) && GoodRun(c, preamble, files, docs)
    ensures var after := Committing(c, preamble, files, docs);
      && GoodDir(c, after) && Grows(files, after)
      && (docs != [] ==>
            Brought(c, preamble, Committing(c, preamble, files, docs[..|docs| - 1]), after, docs[|docs| - 1]))
    decreases |docs|
  {
    hide GoodDir, GoodCommit, Brought, Committed;
    if docs != [] {
      var next := Committed(c, preamble, files, docs[0]);
      CommitRefines(c, preamble, files, docs[0]);
      EveryRunRefines(c, preamble, next, docs[1..]);
      var after := Committing(c, preamble, files, docs);
      forall name | name in files ensures name in after && files[name] <= after[name] {
        assert name in next && files[name] <= next[name] <= after[name];
      }
      var (front, rest) := (docs[..|docs| - 1], docs[1..]);
      if |docs| == 1 {
        assert front == [] && rest == [];
      } else {
        assert front[0] == docs[0] && front[1..] == rest[..|rest| - 1];
      }
    }
  }

  /// An issue a record can carry, of a directory's own id.
  ghost predicate Recordable(h: Heading) {
    Carried(h) && IsBytes(h.id) && Get(h.properties, "ID") == Some(h.id)
  }

  /**
   Whatever the reader made of the new texts, committing the same issues once
   more leaves a directory that folds to exactly those issues.
   */
  lemma SecondCommitIsExact(c: Codec, preamble: string, files: Files, doc: seq<Heading>)
    requires GoodDir(c, files) && GoodCommit(c, preamble, files, doc) && forall h :: h in doc ==> Recordable(h)
    ensures var once := Committed(c, preamble, files, doc);
      && GoodCommit(c, preamble, once, doc)
      && Represents(c, Committed(c, preamble, once, doc), doc)
  {
    var once := Committed(c, preamble, files, doc);
    CommitRefines(c, preamble, files, doc);
    hide GoodDir, Carried, Occurs, HeaderLeft, IsBytes, FileName, Committed, ReadFile, Arrival;
    forall h | h in doc ensures StateOf(c, once, h.id) == Live {
      OwnerIsWant(doc, h.id);
      WantFacts(doc, h.id);
      SameIdSame(doc, h);
      ArrivalIsRead(c, preamble, files, h);
      assert SameLoad(LoadedAs(c, once, FileName(h.id)), Arrived(c, preamble, files, doc, FileName(h.id)));
    }
    LiveIsAcceptable(c, preamble, once, doc);
    CommitRefines(c, preamble, once, doc);
    hide GoodCommit, Recordable;
    forall name ensures SameLoad(Arrived(c, preamble, once, doc, name), OwnerOf(doc, name)) {
      OwnerFacts(doc, name);
    }
    ExactTextsAreRepresented(c, preamble, once, Committed(c, preamble, once, doc), doc);
  }

  lemma SameIdSame(doc: seq<Heading>, h: Heading)
    requires DistinctIds(doc) && h in doc
    ensures WantAt(doc, h.id) == Some(h)
  {
    hide IsBytes;
    WantFacts(doc, h.id);
    var w := WantAt(doc, h.id).value;
    var i :| 0 <= i < |doc| && doc[i] == h;
    var j :| 0 <= j < |doc| && doc[j] == w;
  }

  lemma LiveIsAcceptable(c: Codec, preamble: string, files: Files, doc: seq<Heading>)
    requires DistinctIds(doc) && forall h :: h in doc ==> Recordable(h) && StateOf(c, files, h.id) == Live
    ensures GoodCommit(c, preamble, files, doc)
    ensures forall h :: h in doc ==> Arrival(c, preamble, files, h) == Some(h)
  {
    hide Occurs, HeaderLeft, IsBytes, FileName, ReadFile, WellFormedDrawer, LogLine.ReadEntry, OneLine, PlainLine;
  }

  /// Committing what the directory already holds writes nothing.
  lemma CommitOfLoadedWritesNothing(c: Codec, preamble: string, files: Files, doc: seq<Heading>)
    requires GoodDir(c, files) && DistinctIds(doc) && Represents(c, files, doc)
    ensures Committed(c, preamble, files, doc) == files
  {
    hide GoodFile, ReadFile, FileName, Listed, HeaderText, SameFields, Diff, Encode, IsBytes;
    forall h | h in doc ensures FileName(h.id) in files {
      OwnerFacts(doc, FileName(h.id));
      assert SameLoad(LoadedAs(c, files, FileName(h.id)), OwnerOf(doc, FileName(h.id)));
    }
    assert NewNames(files, doc) == {};
    forall name | name in files && Listed(name) ensures AppendedTo(c, files[name], doc) == files[name] {
      NothingAppended(c, files, doc, name);
    }
  }

  lemma NothingAppended(c: Codec, files: Files, doc: seq<Heading>, name: string)
    requires DistinctIds(doc) && name in files && Listed(name) && GoodFile(c, name, files[name])
    requires SameLoad(LoadedAs(c, files, name), OwnerOf(doc, name))
    ensures AppendedTo(c, files[name], doc) == files[name]
  {
    var f := GoodFileReads(c, name, files[name]);
    hide GoodFile, ReadFile, FileName, Listed, Diff, IsBytes, OneLine;
    OwnerIsWant(doc, f.heading.id);
    WantFacts(doc, f.heading.id);
    var want := WantAt(doc, f.heading.id);
    if want.Some? {
      NoDiff(f.heading, want.value);
    }
    assert Encode([]) == "" && files[name] + "" == files[name];
  }

  // ---- the commit as the program runs it ----

  /// The text of an old file once the headings in `want` are written, and the
  /// tombstones too when `swept`.
  function TextAfter(c: Codec, text: string, want: Option<Heading>, swept: bool): string {
    match ReadFile(c, text)
    case None => text
    case Some(f) => text + Encode(if want.None? && !swept then [] else RecordsFor(c, f, want))
  }

  /// An entry of the index: the file and what it folds to.
  datatype Loaded = Loaded(file: string, folded: Folded)

  predicate Indexed(byId: map<string, Loaded>, name: string) {
    exists id :: id in byId && byId[id].file == name
  }

  /// An index of folded files, each under the id it folds to.
  ghost predicate IsIndex(c: Codec, files: Files, byId: map<string, Loaded>) {
    forall id :: id in byId ==>
      && byId[id].file in files && Listed(byId[id].file)
      && ReadFile(c, files[byId[id].file]) == Some(byId[id].folded)
      && byId[id].folded.heading.id == id
  }

  lemma IndexedMore(byId: map<string, Loaded>, id: string, l: Loaded)
    requires id !in byId
    ensures Indexed(byId[id := l], l.file)
    ensures forall name :: Indexed(byId, name) ==> Indexed(byId[id := l], name)
  {
    var more := byId[id := l];
    assert more[id].file == l.file;
    forall name | Indexed(byId, name) ensures Indexed(more, name) {
      var other :| other in byId && byId[other].file == name;
      assert more[other].file == name;
    }
  }

  /// A file that does not read, or two files of one issue.
  ghost predicate ReadClash(c: Codec, files: Files) {
    || (exists name :: name in files && Listed(name) && ReadFile(c, files[name]).None?)
    || (exists name, other :: name in files && other in files && Listed(name) && Listed(other) && name != other
          && ReadFile(c, files[name]).Some? && ReadFile(c, files[other]).Some?
          && ReadFile(c, files[name]).value.heading.id == ReadFile(c, files[other]).value.heading.id)
  }

  lemma ClashFound(c: Codec, files: Files, byId: map<string, Loaded>, name: string)
    requires IsIndex(c, files, byId) && name in files && Listed(name) && !Indexed(byId, name)
    requires ReadFile(c, files[name]).None? || ReadFile(c, files[name]).value.heading.id in byId
    ensures ReadClash(c, files)
  {
    hide ReadFile;
    var f := ReadFile(c, files[name]);
    if f.Some? {
      var other := byId[f.value.heading.id].file;
      assert other in files && other != name;
    }
  }

  /// In a good directory no two files are of one issue.
  lemma NoSharedId(c: Codec, files: Files, byId: map<string, Loaded>, name: string)
    requires GoodDir(c, files) && IsIndex(c, files, byId) && name in files && Listed(name) && !Indexed(byId, name)
    ensures ReadFile(c, files[name]).Some? && ReadFile(c, files[name]).value.heading.id !in byId
  {
    hide ReadFile, GoodFile, FileName, Keeps, IsBytes;
    var f := GoodFileReads(c, name, files[name]);
    if f.heading.id in byId {
      var other := byId[f.heading.id].file;
      var g := GoodFileReads(c, other, files[other]);
    }
  }

  /// Where the text of an old file stands while a commit runs.
  predicate StandsAt(c: Codec, before: Files, files: Files, name: string, want: Option<Heading>, swept: bool) {
    name in files && name in before && files[name] == TextAfter(c, before[name], want, swept)
  }

  ghost predicate Midway(c: Codec, before: Files, files: Files, byId: map<string, Loaded>, doc: seq<Heading>, todo: set<string>, swept: bool) {
    forall id :: id in byId ==> StandsAt(c, before, files, byId[id].file, WantAt(doc, id), swept && id !in todo)
  }

  lemma NothingIndexed()
    ensures forall name :: !Indexed(map[], name)
  {
  }

  class LedgerDir {
    var files: Files

    constructor ()
      ensures files == map[]
    {
      files := map[];
    }

    /// Fold every listed file, in whatever order the directory gives them. Two
    /// files of one issue are an error, and so is a file that does not read.
    method ReadDir(c: Codec) returns (ok: bool, byId: map<string, Loaded>)
      ensures ok ==> IsIndex(c, files, byId) && forall name :: name in files && Listed(name) ==> Indexed(byId, name)
      ensures !ok ==> ReadClash(c, files)
      ensures GoodDir(c, files) ==> ok
    {
      hide ReadFile, GoodDir, Indexed;
      byId := map[];
      NothingIndexed();
      var names := set name | name in files && Listed(name);
      var left := names;
      while left != {}
        invariant left <= names
        invariant IsIndex(c, files, byId)
        invariant forall name :: name in left ==> !Indexed(byId, name)
        invariant forall name :: name in names - left ==> Indexed(byId, name)
        decreases |left|
      {
        var name :| name in left;
        var f := ReadFile(c, files[name]);
        if GoodDir(c, files) {
          NoSharedId(c, files, byId, name);
        }
        if f.None? || f.value.heading.id in byId {
          ClashFound(c, files, byId, name);
          return false, map[];
        }
        var l := Loaded(name, f.value);
        ghost var known, before := byId, left;
        IndexedMore(byId, f.value.heading.id, l);
        IndexedOnly(byId, f.value.heading.id, l);
        byId := byId[f.value.heading.id := l];
        left := left - {name};
        forall other | other in names - left ensures Indexed(byId, other) {
          if other != name {
            assert other in names - before;
            assert Indexed(known, other);
          }
        }
      }
      ok := true;
    }

    /// Open for append, creating the file when it is not there.
    method AppendTo(name: string, text: string)
      modifies this
      ensures files == old(files)[name := Get(old(files), name).GetOr("") + text]
    {
      files := files[name := Get(files, name).GetOr("") + text];
    }

    /**
     Append the difference between the directory and `doc`: a new file for a
     new id, a `replace` for one that was removed, the changed fields for the
     rest, and a tombstone for every live issue `doc` has no more.
     */
    method Commit(c: Codec, preamble: string, doc: seq<Heading>) returns (ok: bool)
      modifies this
      ensures Grows(old(files), files)
      ensures GoodDir(c, old(files)) && DistinctIds(doc) ==> (ok <==> NoneHidden(old(files), doc))
      ensures GoodDir(c, old(files)) && DistinctIds(doc) && ok ==> files == Committed(c, preamble, old(files), doc)
    {
      ghost var before := files;
      ghost var good := GoodDir(c, files) && DistinctIds(doc);
      var read, byId := ReadDir(c);
      GrowsSelf(files);
      if !read {
        return false;
      }
      if good {
        StandingAtStart(c, preamble, before, byId, doc);
      }
      var written := WriteHeadings(c, preamble, doc, byId, before, good);
      if !written {
        return false;
      }
      WriteTombstones(c, preamble, doc, byId, before, good);
      ok := true;
    }

    method WriteHeadings(c: Codec, preamble: string, doc: seq<Heading>, byId: map<string, Loaded>, ghost before: Files, ghost good: bool)
      returns (ok: bool)
      requires Grows(before, files)
      requires good ==> ReadWhole(c, preamble, before, byId, doc) && Standing(c, preamble, before, files, byId, doc, [], {}, false)
      modifies this
      ensures Grows(before, files)
      ensures good ==> (ok <==> NoneHidden(before, doc))
      ensures good && ok ==> Standing(c, preamble, before, files, byId, doc, doc, {}, false)
    {
      hide NoneHidden, IsHidden, ReadWhole, RecordsFor, HeaderText, Encode, FileName, Standing, Grows;
      assert doc[..0] == [];
      NoneIsHidden(before);
      for i := 0 to |doc|
        invariant Grows(before, files)
        invariant good ==> NoneHidden(before, doc[..i]) && Standing(c, preamble, before, files, byId, doc, doc[..i], {}, false)
      {
        var h := doc[i];
        if good {
          HiddenSnoc(before, doc, i);
          HeadingStep(c, preamble, before, files, byId, doc, i);
        }
        if h.id !in byId {
          if FileName(h.id) in files {
            return false;
          }
          GrowsAppend(before, files, FileName(h.id), HeaderText(preamble, c.render(h)));
          AppendTo(FileName(h.id), HeaderText(preamble, c.render(h)));
        } else {
          GrowsAppend(before, files, byId[h.id].file, Encode(RecordsFor(c, byId[h.id].folded, Some(h))));
          AppendTo(byId[h.id].file, Encode(RecordsFor(c, byId[h.id].folded, Some(h))));
        }
      }
      assert doc[..|doc|] == doc;
      ok := true;
    }

    method WriteTombstones(c: Codec, preamble: string, doc: seq<Heading>, byId: map<string, Loaded>, ghost before: Files, ghost good: bool)
      requires Grows(before, files)
      requires good ==> ReadWhole(c, preamble, before, byId, doc) && Standing(c, preamble, before, files, byId, doc, doc, {}, false)
      modifies this
      ensures Grows(before, files)
      ensures good ==> files == Committed(c, preamble, before, doc)
    {
      hide ReadWhole, Encode, Standing, Grows, WantAt, Committed;
      var todo := byId.Keys;
      if good {
        SweepStarts(c, preamble, before, files, byId, doc);
      }
      while todo != {}
        invariant todo <= byId.Keys
        invariant Grows(before, files)
        invariant good ==> Standing(c, preamble, before, files, byId, doc, doc, todo, true)
        decreases |todo|
      {
        var id :| id in todo;
        if good {
          SweepStep(c, preamble, before, files, byId, doc, todo, id);
        }
        todo := todo - {id};
        if !byId[id].folded.tombstoned && WantAt(doc, id).None? {
          GrowsAppend(before, files, byId[id].file, Encode([Record("tombstone", "")]));
          AppendTo(byId[id].file, Encode([Record("tombstone", "")]));
        }
      }
      if good {
        SweepEnds(c, preamble, before, files, byId, doc);
      }
    }
  }

  lemma GrowsSelf(files: Files)
    ensures Grows(files, files)
  {
  }

  lemma GrowsAppend(before: Files, files: Files, name: string, text: string)
    requires Grows(before, files)
    ensures Grows(before, files[name := Get(files, name).GetOr("") + text])
  {
  }

  // ---- issues whose file no reading lists ----

  /// The file of `h` is there, and no reading of the directory takes it up.
  predicate IsHidden(files: Files, h: Heading) {
    FileName(h.id) in files && !Listed(FileName(h.id))
  }

  predicate NoneHidden(files: Files, doc: seq<Heading>) {
    forall h :: h in doc ==> !IsHidden(files, h)
  }

  lemma NoneIsHidden(files: Files)
    ensures NoneHidden(files, [])
  {
  }

  lemma HiddenSnoc(files: Files, doc: seq<Heading>, i: nat)
    requires i < |doc|
    ensures NoneHidden(files, doc[..i + 1]) <==> NoneHidden(files, doc[..i]) && !IsHidden(files, doc[i])
    ensures NoneHidden(files, doc) ==> !IsHidden(files, doc[i])
  {
    hide IsHidden;
    assert doc[..i + 1] == doc[..i] + [doc[i]];
    assert forall h :: h in doc[..i + 1] <==> h in doc[..i] || h == doc[i];
  }

  /// A commit writes an issue whose id is empty or begins with a dot, and no
  /// reading finds it again.
  lemma DottedIdIsLost(c: Codec, preamble: string, files: Files, doc: seq<Heading>, h: Heading)
    requires h in doc && (h.id == "" || h.id[0] == '.')
    ensures var after := Committed(c, preamble, files, doc);
      && FileName(h.id) in after && IsHidden(after, h)
      && LoadedAs(c, after, FileName(h.id)) == None
  {
    ListedExactly(h.id);
    hide FileName, Listed, ReadFile, HeaderText;
  }

  /// What was committed can be committed once more exactly when no id is empty
  /// or begins with a dot: `Commit` is refused at a hidden file.
  lemma CommitsAgainExactly(c: Codec, preamble: string, files: Files, doc: seq<Heading>)
    ensures NoneHidden(Committed(c, preamble, files, doc), doc) <==> forall h :: h in doc ==> h.id != "" && h.id[0] != '.'
  {
    hide FileName, Listed, ReadFile, HeaderText;
    forall h | h in doc ensures IsHidden(Committed(c, preamble, files, doc), h) <==> h.id == "" || h.id[0] == '.' {
      ListedExactly(h.id);
      assert FileName(h.id) in files || FileName(h.id) in NewNames(files, doc);
    }
  }

  // ---- where a running commit stands ----

  lemma KeysStand(c: Codec, preamble: string, before: Files, files: Files, byId: map<string, Loaded>, doc: seq<Heading>, done: seq<Heading>)
    requires Standing(c, preamble, before, files, byId, doc, done, {}, false)
    ensures before.Keys <= files.Keys
  {
    hide Midway, NewText, NewNames;
  }

  /// The old files as `Midway` has them, and the files made so far.
  ghost predicate Standing(c: Codec, preamble: string, before: Files, files: Files, byId: map<string, Loaded>,
                           doc: seq<Heading>, done: seq<Heading>, todo: set<string>, swept: bool)
  {
    && Midway(c, before, files, byId, done, todo, swept)
    && files.Keys == before.Keys + NewNames(before, done)
    && (forall name :: name in files && name !in before ==> files[name] == NewText(c, preamble, doc, name))
    && forall name :: name in before && !Listed(name) ==> files[name] == before[name]
  }

  /// What a commit may rely on: a good directory, read whole.
  ghost predicate ReadWhole(c: Codec, preamble: string, before: Files, byId: map<string, Loaded>, doc: seq<Heading>) {
    && GoodDir(c, before) && DistinctIds(doc)
    && IsIndex(c, before, byId) && forall name :: name in before && Listed(name) ==> Indexed(byId, name)
  }

  lemma StandingAtStart(c: Codec, preamble: string, before: Files, byId: map<string, Loaded>, doc: seq<Heading>)
    requires ReadWhole(c, preamble, before, byId, doc)
    ensures Standing(c, preamble, before, before, byId, doc, [], {}, false)
  {
    hide GoodDir, Indexed, ReadFile;
    assert NewNames(before, []) == {};
    forall id | id in byId ensures StandsAt(c, before, before, byId[id].file, WantAt([], id), false) {
      OldText(c, before, byId[id], Blank());
    }
  }

  function Blank(): Heading {
    Heading("", "", "", 'A', map[], [], None, [], [], "", [], 0, 0)
  }

  /// An indexed file is the file of its id.
  lemma FileOf(c: Codec, preamble: string, before: Files, byId: map<string, Loaded>, doc: seq<Heading>, id: string)
    requires ReadWhole(c, preamble, before, byId, doc) && id in byId
    ensures IsBytes(id) && byId[id].file == FileName(id) && Listed(FileName(id))
  {
    hide ReadFile, GoodFile, FileName, IsBytes, Keeps, Indexed;
    var name := byId[id].file;
    var f := GoodFileReads(c, name, before[name]);
  }

  /// An id is indexed exactly when its file is there and listed.
  lemma IndexedIff(c: Codec, preamble: string, before: Files, byId: map<string, Loaded>, doc: seq<Heading>, id: string)
    requires ReadWhole(c, preamble, before, byId, doc) && IsBytes(id)
    ensures id in byId <==> FileName(id) in before && Listed(FileName(id))
  {
    hide GoodDir, FileName, IsBytes, ReadFile;
    if id in byId {
      FileOf(c, preamble, before, byId, doc, id);
    }
    if FileName(id) in before && Listed(FileName(id)) {
      assert Indexed(byId, FileName(id));
      var other :| other in byId && byId[other].file == FileName(id);
      FileOf(c, preamble, before, byId, doc, other);
      FileNameInjective(id, other);
    }
  }

  lemma {:induction false} WantSnoc(doc: seq<Heading>, h: Heading, id: string)
    ensures WantAt(doc + [h], id) == if WantAt(doc, id).Some? then WantAt(doc, id) else if h.id == id then Some(h) else None
  {
    if doc != [] {
      WantSnoc(doc[1..], h, id);
      assert (doc + [h])[1..] == doc[1..] + [h];
    }
  }

  lemma {:induction false} WantConcat(s: seq<Heading>, t: seq<Heading>, id: string)
    ensures WantAt(s + t, id) == if WantAt(s, id).Some? then WantAt(s, id) else WantAt(t, id)
  {
    if s == [] {
      assert s + t == t;
    } else {
      WantConcat(s[1..], t, id);
      assert (s + t)[1..] == s[1..] + t;
    }
  }

  lemma EarlierIds(doc: seq<Heading>, i: nat)
    requires DistinctIds(doc) && i < |doc|
    ensures forall h :: h in doc[..i] ==> h in doc && h.id != doc[i].id
  {
    hide IsBytes;
    forall h | h in doc[..i] ensures h in doc && h.id != doc[i].id {
      var j :| 0 <= j < i && doc[..i][j] == h;
      assert doc[j] == h;
    }
  }

  /// The headings of a document, one at a time, and none twice.
  lemma NextHeading(doc: seq<Heading>, i: nat)
    requires DistinctIds(doc) && i < |doc|
    ensures doc[..i + 1] == doc[..i] + [doc[i]] && doc[i] in doc
    ensures WantAt(doc[..i], doc[i].id) == None && WantAt(doc, doc[i].id) == Some(doc[i])
    ensures forall h :: h in doc[..i] ==> h in doc && h.id != doc[i].id
  {
    EarlierIds(doc, i);
    hide DistinctIds;
    WantFacts(doc[..i], doc[i].id);
    assert doc == doc[..i] + doc[i..];
    WantConcat(doc[..i], doc[i..], doc[i].id);
  }

  lemma NewNamesSnoc(files: Files, doc: seq<Heading>, h: Heading)
    ensures NewNames(files, doc + [h]) == NewNames(files, doc) + (if FileName(h.id) in files then {} else {FileName(h.id)})
  {
    hide FileName;
    assert forall x :: x in doc + [h] <==> x in doc || x == h;
  }

  function AfterHeading(c: Codec, preamble: string, files: Files, byId: map<string, Loaded>, h: Heading): Files {
    if h.id !in byId then files[FileName(h.id) := Get(files, FileName(h.id)).GetOr("") + HeaderText(preamble, c.render(h))]
    else
      var name := byId[h.id].file;
      files[name := Get(files, name).GetOr("") + Encode(RecordsFor(c, byId[h.id].folded, Some(h)))]
  }

  lemma HeadingStep(c: Codec, preamble: string, before: Files, files: Files, byId: map<string, Loaded>, doc: seq<Heading>, i: nat)
    requires ReadWhole(c, preamble, before, byId, doc) && i < |doc|
    requires Standing(c, preamble, before, files, byId, doc, doc[..i], {}, false)
    ensures doc[i].id !in byId ==> (FileName(doc[i].id) in files <==> IsHidden(before, doc[i]))
    ensures doc[i].id in byId ==> !IsHidden(before, doc[i])
    ensures !IsHidden(before, doc[i]) ==>
      Standing(c, preamble, before, AfterHeading(c, preamble, files, byId, doc[i]), byId, doc, doc[..i + 1], {}, false)
  {
    hide ReadFile, FileName, GoodDir, IsIndex, Indexed, AfterHeading, Midway, NewText, NewNames;
    NextHeading(doc, i);
    hide DistinctIds, Standing, IsBytes;
    IndexedIff(c, preamble, before, byId, doc, doc[i].id);
    if IsHidden(before, doc[i]) {
      KeysStand(c, preamble, before, files, byId, doc, doc[..i]);
    } else if doc[i].id !in byId {
      NewHeadingStep(c, preamble, before, files, byId, doc, i);
    } else {
      OldHeadingStep(c, preamble, before, files, byId, doc, i);
    }
  }

  /// The file of a new heading is not there yet.
  lemma NewFileIsNew(c: Codec, preamble: string, before: Files, byId: map<string, Loaded>, doc: seq<Heading>, i: nat)
    requires ReadWhole(c, preamble, before, byId, doc) && DistinctIds(doc)
    requires i < |doc| && doc[i].id !in byId && !IsHidden(before, doc[i])
    ensures FileName(doc[i].id) !in before && FileName(doc[i].id) !in NewNames(before, doc[..i])
    ensures OwnerOf(doc, FileName(doc[i].id)) == Some(doc[i])
  {
    var h := doc[i];
    hide ReadFile, FileName, GoodDir, IsBytes, IsIndex, Indexed;
    NextHeading(doc, i);
    IndexedIff(c, preamble, before, byId, doc, h.id);
    forall x | x in doc[..i] ensures FileName(x.id) != FileName(h.id) {
      if FileName(x.id) == FileName(h.id) {
        FileNameInjective(x.id, h.id);
      }
    }
    OwnerIsWant(doc, h.id);
  }

  lemma NewHeadingMid(c: Codec, before: Files, files: Files, byId: map<string, Loaded>, done: seq<Heading>, h: Heading, name: string, text: string)
    requires Midway(c, before, files, byId, done, {}, false)
    requires h.id !in byId && name !in files
    ensures Midway(c, before, files[name := text], byId, done + [h], {}, false)
  {
    hide StandsAt, WantAt;
    forall id | id in byId ensures StandsAt(c, before, files[name := text], byId[id].file, WantAt(done + [h], id), false) {
      WantSnoc(done, h, id);
      assert StandsAt(c, before, files, byId[id].file, WantAt(done, id), false);
      InFiles(c, before, files, byId[id].file, WantAt(done, id), false);
      StaysAt(c, before, files, byId[id].file, WantAt(done, id), false, name, text);
    }
  }

  lemma NewHeadingStep(c: Codec, preamble: string, before: Files, files: Files, byId: map<string, Loaded>, doc: seq<Heading>, i: nat)
    requires ReadWhole(c, preamble, before, byId, doc) && DistinctIds(doc)
    requires i < |doc| && doc[i].id !in byId && !IsHidden(before, doc[i])
    requires Standing(c, preamble, before, files, byId, doc, doc[..i], {}, false)
    ensures FileName(doc[i].id) !in files
    ensures Standing(c, preamble, before, AfterHeading(c, preamble, files, byId, doc[i]), byId, doc, doc[..i + 1], {}, false)
  {
    hide ReadFile, GoodFile, GoodDir, IsIndex, Indexed, IsBytes, ReadWhole, DistinctIds, Midway,
      FileName, HeaderText, WantAt, OwnerOf, NewNames, RecordsFor, Encode;
    var h := doc[i];
    var name := FileName(h.id);
    NewFileIsNew(c, preamble, before, byId, doc, i);
    NextHeading(doc, i);
    NewNamesSnoc(before, doc[..i], h);
    var text := HeaderText(preamble, c.render(h));
    assert "" + text == text;
    assert name !in files;
    NewHeadingMid(c, before, files, byId, doc[..i], h, name, text);
  }

  lemma OldHeadingAt(c: Codec, before: Files, files: Files, byId: map<string, Loaded>, done: seq<Heading>, h: Heading, id: string)
    requires IsIndex(c, before, byId) && id in byId && h.id in byId && WantAt(done, h.id) == None
    requires byId[h.id].file in before
    requires StandsAt(c, before, files, byId[id].file, WantAt(done, id), false)
    ensures var l := byId[h.id];
      StandsAt(c, before, files[l.file := Get(files, l.file).GetOr("") + Encode(RecordsFor(c, l.folded, Some(h)))],
               byId[id].file, WantAt(done + [h], id), false)
  {
    hide StandsAt, WantAt, ReadFile, RecordsFor, Encode;
    var l := byId[h.id];
    WantSnoc(done, h, id);
    if id == h.id {
      WrittenNow(c, before, files, l, h);
    } else {
      OtherIds(c, before, byId, id, h.id);
      StaysAt(c, before, files, byId[id].file, WantAt(done, id), false, l.file,
              Get(files, l.file).GetOr("") + Encode(RecordsFor(c, l.folded, Some(h))));
    }
  }

  lemma OldHeadingMid(c: Codec, before: Files, files: Files, byId: map<string, Loaded>, done: seq<Heading>, h: Heading)
    requires IsIndex(c, before, byId) && h.id in byId && WantAt(done, h.id) == None
    requires Midway(c, before, files, byId, done, {}, false)
    ensures var l := byId[h.id];
      && l.file in files
      && Midway(c, before, files[l.file := Get(files, l.file).GetOr("") + Encode(RecordsFor(c, l.folded, Some(h)))],
                byId, done + [h], {}, false)
  {
    hide StandsAt, WantAt, RecordsFor, Encode, ReadFile;
    var l := byId[h.id];
    assert StandsAt(c, before, files, l.file, WantAt(done, h.id), false);
    InFiles(c, before, files, l.file, WantAt(done, h.id), false);
    var after := files[l.file := Get(files, l.file).GetOr("") + Encode(RecordsFor(c, l.folded, Some(h)))];
    forall id | id in byId ensures StandsAt(c, before, after, byId[id].file, WantAt(done + [h], id), false) {
      assert StandsAt(c, before, files, byId[id].file, WantAt(done, id), false);
      OldHeadingAt(c, before, files, byId, done, h, id);
    }
  }

  lemma OldHeadingStep(c: Codec, preamble: string, before: Files, files: Files, byId: map<string, Loaded>, doc: seq<Heading>, i: nat)
    requires ReadWhole(c, preamble, before, byId, doc) && DistinctIds(doc)
    requires i < |doc| && doc[i].id in byId
    requires Standing(c, preamble, before, files, byId, doc, doc[..i], {}, false)
    ensures Standing(c, preamble, before, AfterHeading(c, preamble, files, byId, doc[i]), byId, doc, doc[..i + 1], {}, false)
  {
    hide ReadFile, GoodFile, GoodDir, Indexed, IsBytes, DistinctIds, Midway, IsIndex,
      FileName, HeaderText, WantAt, OwnerOf, NewNames, RecordsFor, Encode, NewText;
    var h := doc[i];
    NextHeading(doc, i);
    FileOf(c, preamble, before, byId, doc, h.id);
    IndexedIff(c, preamble, before, byId, doc, h.id);
    NewNamesSnoc(before, doc[..i], h);
    OldHeadingMid(c, before, files, byId, doc[..i], h);
  }

  lemma InFiles(c: Codec, before: Files, files: Files, name: string, want: Option<Heading>, swept: bool)
    requires StandsAt(c, before, files, name, want, swept)
    ensures name in files && name in before
  {
  }

  /// Writing one file leaves the others where they stand.
  lemma StaysAt(c: Codec, before: Files, files: Files, name: string, want: Option<Heading>, swept: bool, other: string, text: string)
    requires StandsAt(c, before, files, name, want, swept) && name != other
    ensures StandsAt(c, before, files[other := text], name, want, swept)
  {
    hide TextAfter;
  }

  /// Two ids are two files.
  lemma OtherIds(c: Codec, before: Files, byId: map<string, Loaded>, id: string, other: string)
    requires IsIndex(c, before, byId) && id in byId && other in byId && id != other
    ensures byId[id].file != byId[other].file
  {
    hide ReadFile;
  }

  /// What the text of an indexed file becomes.
  lemma OldText(c: Codec, before: Files, l: Loaded, h: Heading)
    requires l.file in before && ReadFile(c, before[l.file]) == Some(l.folded)
    ensures var text := before[l.file];
      && TextAfter(c, text, None, false) == text
      && TextAfter(c, text, Some(h), false) == TextAfter(c, text, Some(h), true) == text + Encode(RecordsFor(c, l.folded, Some(h)))
      && TextAfter(c, text, None, true)
         == (if l.folded.tombstoned then text else text + Encode([Record("tombstone", "")]))
  {
    hide ReadFile, Diff;
    var text := before[l.file];
    assert Encode([]) == "" && text + "" == text;
    hide Encode;
  }

  lemma WrittenNow(c: Codec, before: Files, files: Files, l: Loaded, h: Heading)
    requires l.file in before && ReadFile(c, before[l.file]) == Some(l.folded)
    requires StandsAt(c, before, files, l.file, None, false)
    ensures StandsAt(c, before, files[l.file := Get(files, l.file).GetOr("") + Encode(RecordsFor(c, l.folded, Some(h)))], l.file, Some(h), false)
  {
    OldText(c, before, l, h);
    hide ReadFile, TextAfter, RecordsFor, Encode;
  }

  lemma SweepStarts(c: Codec, preamble: string, before: Files, files: Files, byId: map<string, Loaded>, doc: seq<Heading>)
    requires Standing(c, preamble, before, files, byId, doc, doc, {}, false)
    ensures Standing(c, preamble, before, files, byId, doc, doc, byId.Keys, true)
  {
    hide StandsAt, FileName, NewText, NewNames, WantAt;
  }

  function AfterSweep(files: Files, byId: map<string, Loaded>, doc: seq<Heading>, id: string): Files {
    if id in byId && !byId[id].folded.tombstoned && WantAt(doc, id).None?
    then files[byId[id].file := Get(files, byId[id].file).GetOr("") + Encode([Record("tombstone", "")])]
    else files
  }

  lemma SweptNow(c: Codec, before: Files, files: Files, l: Loaded, want: Option<Heading>)
    requires l.file in before && ReadFile(c, before[l.file]) == Some(l.folded)
    requires StandsAt(c, before, files, l.file, want, false)
    ensures StandsAt(c, before,
      if !l.folded.tombstoned && want.None? then files[l.file := Get(files, l.file).GetOr("") + Encode([Record("tombstone", "")])] else files,
      l.file, want, true)
  {
    OldText(c, before, l, want.GetOr(Blank()));
    hide ReadFile, TextAfter, RecordsFor, Encode;
    if want.Some? { assert want == Some(want.GetOr(Blank())); }
  }

  lemma SweepStep(c: Codec, preamble: string, before: Files, files: Files, byId: map<string, Loaded>, doc: seq<Heading>,
                  todo: set<string>, id: string)
    requires ReadWhole(c, preamble, before, byId, doc) && id in todo && todo <= byId.Keys
    requires Standing(c, preamble, before, files, byId, doc, doc, todo, true)
    ensures Standing(c, preamble, before, AfterSweep(files, byId, doc, id), byId, doc, doc, todo - {id}, true)
  {
    hide StandsAt, FileName, WantAt, NewNames, GoodDir, Indexed, ReadFile, Encode, NewText;
    assert id in byId;
    var l := byId[id];
    assert StandsAt(c, before, files, l.file, WantAt(doc, id), false);
    InFiles(c, before, files, l.file, WantAt(doc, id), false);
    var after := AfterSweep(files, byId, doc, id);
    SweptNow(c, before, files, l, WantAt(doc, id));
    forall other | other in byId
      ensures StandsAt(c, before, after, byId[other].file, WantAt(doc, other), other !in todo - {id})
    {
      assert StandsAt(c, before, files, byId[other].file, WantAt(doc, other), other !in todo);
      if other != id {
        OtherIds(c, before, byId, other, id);
        StaysAt(c, before, files, byId[other].file, WantAt(doc, other), other !in todo, l.file,
                Get(files, l.file).GetOr("") + Encode([Record("tombstone", "")]));
      }
    }
  }

  lemma SweepEnds(c: Codec, preamble: string, before: Files, files: Files, byId: map<string, Loaded>, doc: seq<Heading>)
    requires ReadWhole(c, preamble, before, byId, doc)
    requires Standing(c, preamble, before, files, byId, doc, doc, {}, true)
    ensures files == Committed(c, preamble, before, doc)
  {
    hide ReadFile, FileName, Listed, GoodDir, RecordsFor, Encode, HeaderText, NewNames, WantAt, NewText;
    forall name | name in before && Listed(name) ensures name in files && files[name] == AppendedTo(c, before[name], doc) {
      assert Indexed(byId, name);
      var id :| id in byId && byId[id].file == name;
      assert StandsAt(c, before, files, name, WantAt(doc, id), true);
    }
  }

  lemma IndexedOnly(byId: map<string, Loaded>, id: string, l: Loaded)
    requires id !in byId
    ensures forall name :: Indexed(byId[id := l], name) ==> Indexed(byId, name) || name == l.file
  {
    forall name | Indexed(byId[id := l], name) ensures Indexed(byId, name) || name == l.file {
      var other :| other in byId[id := l] && byId[id := l][other].file == name;
      if other != id {
        assert byId[other].file == name;
      }
    }
  }
}
