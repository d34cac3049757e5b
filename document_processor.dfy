/**
 * Ingestion (backend/processors/document_processor.py): every `.json` file of
 * a CDP's data directory is split into chunks, and each chunk is added to the
 * CDP's collection under the id `<cdp>_<document_count>_<i>` with its
 * metadata. The text splitter is a parameter; embeddings are not modelled.
 */
module DocumentProcessing {
  import opened Text
  import opened Wrappers

  /** The `doc_type` metadata value: 'how_to' or 'general'. */
  datatype DocType = HowTo | General

  datatype ChunkMetadata = ChunkMetadata(
    source: string, title: string, url: string,
    chunkId: nat, totalChunks: nat, docType: DocType)

  /** One `collection.add` of a chunk: its id, its text and its metadata. */
  datatype Entry = Entry(id: string, document: string, metadata: ChunkMetadata)

  /** What `json.load` makes of a file: a decode error, or an object of string fields. */
  datatype Json = Malformed | Object(fields: map<string, string>)

  /** One name listed in a CDP's data directory, with the file's contents. */
  datatype DataFile = DataFile(name: string, data: Json)

  /** One name listed in the data directory: a CDP directory with its files, or something else. */
  datatype DirEntry = DirEntry(name: string, isDir: bool, files: seq<DataFile>)

  /** What `process_cdp_docs` does: no data directory, a count of documents, or a `KeyError` that escapes. */
  datatype Ingested = NoDataDir | Processed(documents: nat) | Raised(key: string)

  /** What `process_all_cdps` does: the keys of its result dictionary, or a `KeyError` that escapes. */
  datatype AllIngested = AllProcessed(cdps: set<string>) | AllRaised(key: string)

  // ---------------------------------------------------------------- one chunk

  const HowToMarkers: seq<string> := ["how to", "steps", "guide", "tutorial", "instructions"]

  /** The `doc_type` of a chunk. */
  function Classify(chunk: string): DocType {
    if ContainsAny(Lower(chunk), HowToMarkers) then HowTo else General
  }

  /** A chunk is 'how_to' iff one of the markers occurs in its lower-case text. */
  lemma ClassifyIff(chunk: string)
    ensures Classify(chunk) == HowTo ==>
      exists k, i :: 0 <= k < |HowToMarkers| && OccursAt(Lower(chunk), HowToMarkers[k], i)
    ensures (exists k, i :: 0 <= k < |HowToMarkers| && OccursAt(Lower(chunk), HowToMarkers[k], i)) ==>
      Classify(chunk) == HowTo
  {
    ContainsAnyIffOccurs(Lower(chunk), HowToMarkers);
  }

  /** The id `f"{cdp_name}_{document_count}_{i}"`. */
  function ChunkId(cdp: string, doc: nat, i: nat): string {
    cdp + "_" + NatToString(doc) + "_" + NatToString(i)
  }

  /** Within one CDP, an id determines its document number and chunk number. */
  lemma ChunkIdInjective(cdp: string, d1: nat, i1: nat, d2: nat, i2: nat)
    requires ChunkId(cdp, d1, i1) == ChunkId(cdp, d2, i2)
    ensures d1 == d2 && i1 == i2
  {
    var a1, b1 := NatToString(d1), NatToString(i1);
    var a2, b2 := NatToString(d2), NatToString(i2);
    NatToStringRoundTrip(d1);
    NatToStringRoundTrip(d2);
    var id1, id2 := ChunkId(cdp, d1, i1), ChunkId(cdp, d2, i2);
    assert id1[|cdp| + 1..] == a1 + ['_'] + b1;
    assert id2[|cdp| + 1..] == a2 + ['_'] + b2;
    assert '_' !in a1 && '_' !in a2 by {
      assert !IsDigit('_');
    }
    SplitAtFirst(a1, b1, a2, b2, '_');
    NatToStringInjective(d1, d2);
    NatToStringInjective(i1, i2);
  }

  // ---------------------------------------------------------------- one document

  /** The entries of one document, or the key whose absence raised before any of them was added. */
  datatype DocOutcome = Added(entries: seq<Entry>) | KeyError(key: string)

  /** The entry of chunk `i` of a document whose chunks are `splits`. */
  function ChunkEntry(cdp: string, doc: nat, fields: map<string, string>, splits: seq<string>, i: nat): Entry
    requires "source" in fields && "title" in fields && "url" in fields
    requires i < |splits|
  {
    Entry(ChunkId(cdp, doc, i), splits[i],
      ChunkMetadata(fields["source"], fields["title"], fields["url"], i, |splits|, Classify(splits[i])))
  }

  /**
   * The entries of the document numbered `doc`. `doc_data['content']` is read
   * first; the metadata of the first chunk then reads 'source', 'title' and
   * 'url' in that order, so a document with no chunk never reads them.
   */
  function DocumentEntries(cdp: string, doc: nat, fields: map<string, string>,
                           split: string -> seq<string>): DocOutcome
  {
    if "content" !in fields then KeyError("content")
    else
      var splits := split(fields["content"]);
      if |splits| == 0 then Added([])
      else if "source" !in fields then KeyError("source")
      else if "title" !in fields then KeyError("title")
      else if "url" !in fields then KeyError("url")
      else Added(seq(|splits|, i requires 0 <= i < |splits| => ChunkEntry(cdp, doc, fields, splits, i)))
  }

  /**
   * A document raises exactly when 'content' is missing, or when it has a
   * chunk and one of 'source', 'title' and 'url' is missing; otherwise chunk
   * `i` becomes an entry with id `ChunkId(cdp, doc, i)`, its own text, and
   * the document's metadata.
   */
  lemma DocumentEntriesSpec(cdp: string, doc: nat, fields: map<string, string>, split: string -> seq<string>)
    ensures var r := DocumentEntries(cdp, doc, fields, split);
      r.KeyError? <==>
        "content" !in fields ||
        (|split(fields["content"])| > 0 && ("source" !in fields || "title" !in fields || "url" !in fields))
    ensures var r := DocumentEntries(cdp, doc, fields, split);
      r.Added? ==>
        var splits := split(fields["content"]);
        |r.entries| == |splits| &&
        forall i :: 0 <= i < |splits| ==>
          r.entries[i].id == ChunkId(cdp, doc, i) &&
          r.entries[i].document == splits[i] &&
          r.entries[i].metadata.chunkId == i &&
          r.entries[i].metadata.totalChunks == |splits| &&
          r.entries[i].metadata.docType == Classify(splits[i]) &&
          r.entries[i].metadata.source == fields["source"] &&
          r.entries[i].metadata.title == fields["title"] &&
          r.entries[i].metadata.url == fields["url"]
  {
  }

  /** The key that raised, if any. */
  function ErrorOf(o: DocOutcome): Option<string> {
    if o.KeyError? then Some(o.key) else None
  }

  /** The entries added, none when a key raised first. */
  function EntriesOf(o: DocOutcome): seq<Entry> {
    if o.Added? then o.entries else []
  }

  // ---------------------------------------------------------------- one directory

  /** The counter, the entries added so far, and the `KeyError` that ended the run, if any. */
  datatype RunState = RunState(count: nat, added: seq<Entry>, error: Option<string>)

  /** The listed file is a `.json` file that decodes. */
  predicate Parses(f: DataFile) {
    EndsWith(f.name, ".json") && f.data.Object?
  }

  /** One pass of the loop of `process_cdp_docs`, on the listed file `f`. */
  function Step(cdp: string, prev: RunState, f: DataFile, split: string -> seq<string>): RunState {
    if prev.error.Some? || !Parses(f) then prev
    else match DocumentEntries(cdp, prev.count, f.data.fields, split)
      case KeyError(k) => prev.(error := Some(k))
      case Added(es) => RunState(prev.count + 1, prev.added + es, None)
  }

  /** The loop of `process_cdp_docs` over the listed files, in listing order. */
  function Run(cdp: string, files: seq<DataFile>, split: string -> seq<string>): RunState
    decreases |files|
  {
    if files == [] then RunState(0, [], None)
    else Step(cdp, Run(cdp, files[..|files| - 1], split), files[|files| - 1], split)
  }

  /** A file that parses advances the run by its document's outcome. */
  lemma StepParsed(cdp: string, prev: RunState, f: DataFile, split: string -> seq<string>)
    requires prev.error.None? && Parses(f)
    ensures var out := DocumentEntries(cdp, prev.count, f.data.fields, split);
      Step(cdp, prev, f, split) ==
        if out.KeyError? then prev.(error := Some(out.key))
        else RunState(prev.count + 1, prev.added + EntriesOf(out), None)
  {
  }

  lemma RunSnoc(cdp: string, files: seq<DataFile>, f: DataFile, split: string -> seq<string>)
    ensures Run(cdp, files + [f], split) == Step(cdp, Run(cdp, files, split), f, split)
  {
    assert (files + [f])[..|files|] == files;
  }

  /** Once a `KeyError` escapes, the later files are never looked at. */
  lemma {:induction false} RunStopsAtError(cdp: string, files: seq<DataFile>, split: string -> seq<string>, n: nat)
    requires n <= |files|
    requires Run(cdp, files[..n], split).error.Some?
    ensures Run(cdp, files, split) == Run(cdp, files[..n], split)
    decreases |files| - n
  {
    if n < |files| {
      assert files[..n + 1][..n] == files[..n];
      RunStopsAtError(cdp, files, split, n + 1);
    } else {
      assert files[..n] == files;
    }
  }

  /** The files that get processed: `.json` names whose contents decode. */
  function ParsedFiles(files: seq<DataFile>): seq<DataFile>
    decreases |files|
  {
    if files == [] then []
    else ParsedFiles(files[..|files| - 1]) + (if Parses(files[|files| - 1]) then [files[|files| - 1]] else [])
  }

  /**
   * Files without the ".json" suffix and files that fail to decode change
   * nothing: the run is that over the files that parse.
   */
  lemma {:induction false} RunIgnoresUnparsed(cdp: string, files: seq<DataFile>, split: string -> seq<string>)
    ensures Run(cdp, files, split) == Run(cdp, ParsedFiles(files), split)
    decreases |files|
  {
    if files != [] {
      var init := files[..|files| - 1];
      var f := files[|files| - 1];
      RunIgnoresUnparsed(cdp, init, split);
      if Parses(f) {
        assert ParsedFiles(files) == ParsedFiles(init) + [f];
        RunSnoc(cdp, ParsedFiles(init), f, split);
      } else {
        assert ParsedFiles(files) == ParsedFiles(init);
      }
    }
  }

  /** Without an escaping error, the counter is the number of files that parse. */
  lemma {:induction false} RunCountsParsedFiles(cdp: string, files: seq<DataFile>, split: string -> seq<string>)
    ensures Run(cdp, files, split).error.None? ==> Run(cdp, files, split).count == |ParsedFiles(files)|
    ensures Run(cdp, files, split).count <= |ParsedFiles(files)|
    decreases |files|
  {
    if files != [] {
      RunCountsParsedFiles(cdp, files[..|files| - 1], split);
    }
  }

  /** Some document number below `count` and some chunk number give this id. */
  ghost predicate IdBelow(cdp: string, id: string, count: nat) {
    exists d: nat, i: nat :: d < count && id == ChunkId(cdp, d, i)
  }

  /** Every id added comes from a document already counted, and no two are equal. */
  ghost predicate IdsDistinct(cdp: string, run: RunState) {
    (forall k :: 0 <= k < |run.added| ==> IdBelow(cdp, run.added[k].id, run.count)) &&
    (forall k1, k2 :: 0 <= k1 < k2 < |run.added| ==> run.added[k1].id != run.added[k2].id)
  }

  /** Adding the entries of the next document keeps the ids distinct. */
  lemma StepIdsDistinct(cdp: string, prev: RunState, es: seq<Entry>)
    requires IdsDistinct(cdp, prev)
    requires forall j :: 0 <= j < |es| ==> es[j].id == ChunkId(cdp, prev.count, j)
    ensures IdsDistinct(cdp, RunState(prev.count + 1, prev.added + es, None))
  {
    var all := prev.added + es;
    var n := |prev.added|;
    forall k | 0 <= k < |all| ensures IdBelow(cdp, all[k].id, prev.count + 1) {
      if k < n {
        assert all[k] == prev.added[k];
        assert IdBelow(cdp, prev.added[k].id, prev.count);
        var d: nat, i: nat :| d < prev.count && all[k].id == ChunkId(cdp, d, i);
        assert d < prev.count + 1;
      } else {
        assert all[k] == es[k - n];
        assert all[k].id == ChunkId(cdp, prev.count, k - n);
      }
    }
    forall k1, k2 | 0 <= k1 < k2 < |all| ensures all[k1].id != all[k2].id {
      if k2 < n {
        assert all[k1] == prev.added[k1] && all[k2] == prev.added[k2];
      } else if k1 >= n {
        assert all[k1] == es[k1 - n] && all[k2] == es[k2 - n];
        if all[k1].id == all[k2].id {
          ChunkIdInjective(cdp, prev.count, k1 - n, prev.count, k2 - n);
        }
      } else {
        assert all[k1] == prev.added[k1];
        assert IdBelow(cdp, prev.added[k1].id, prev.count);
        var d: nat, i: nat :| d < prev.count && all[k1].id == ChunkId(cdp, d, i);
        assert all[k2] == es[k2 - n];
        if all[k1].id == all[k2].id {
          ChunkIdInjective(cdp, d, i, prev.count, k2 - n);
        }
      }
    }
  }

  /** All ids added within one run are distinct. */
  lemma {:induction false} RunIdsDistinct(cdp: string, files: seq<DataFile>, split: string -> seq<string>)
    ensures IdsDistinct(cdp, Run(cdp, files, split))
    decreases |files|
  {
    if files != [] {
      var init := files[..|files| - 1];
      var f := files[|files| - 1];
      RunIdsDistinct(cdp, init, split);
      var prev := Run(cdp, init, split);
      if prev.error.None? && Parses(f) {
        var out := DocumentEntries(cdp, prev.count, f.data.fields, split);
        if out.Added? {
          DocumentEntriesSpec(cdp, prev.count, f.data.fields, split);
          StepIdsDistinct(cdp, prev, out.entries);
        }
      }
    }
  }

  // ---------------------------------------------------------------- all directories

  /** The names of the directory entries that are directories. */
  function DirNames(dirs: seq<DirEntry>): set<string> {
    set k | 0 <= k < |dirs| && dirs[k].isDir :: dirs[k].name
  }

  /** The entries a collection holds in a store, none when it does not exist yet. */
  function Stored(store: map<string, seq<Entry>>, name: string): seq<Entry> {
    if name in store then store[name] else []
  }

  /**
   * The loop of `process_all_cdps` from the directory entries `dirs` on,
   * with the store as it is and the keys `acc` already in the result.
   */
  function IngestAll(store: map<string, seq<Entry>>, dirs: seq<DirEntry>, acc: set<string>,
                     split: string -> seq<string>): (map<string, seq<Entry>>, AllIngested)
    decreases |dirs|
  {
    if dirs == [] then (store, AllProcessed(acc))
    else if !dirs[0].isDir then IngestAll(store, dirs[1..], acc, split)
    else
      var name := dirs[0].name;
      var run := Run(name, dirs[0].files, split);
      var store' := store[name := Stored(store, name) + run.added];
      if run.error.Some? then (store', AllRaised(run.error.value))
      else IngestAll(store', dirs[1..], acc + {name}, split)
  }

  /** When nothing raises, the result is keyed by exactly the directories listed. */
  lemma {:induction false} IngestAllKeys(store: map<string, seq<Entry>>, dirs: seq<DirEntry>, acc: set<string>,
                                         split: string -> seq<string>)
    ensures IngestAll(store, dirs, acc, split).1.AllProcessed? ==>
      IngestAll(store, dirs, acc, split).1.cdps == acc + DirNames(dirs)
    decreases |dirs|
  {
    if dirs != [] {
      var name := dirs[0].name;
      var run := Run(name, dirs[0].files, split);
      var store' := store[name := Stored(store, name) + run.added];
      var acc' := if dirs[0].isDir then acc + {name} else acc;
      var st := if dirs[0].isDir then store' else store;
      IngestAllKeys(st, dirs[1..], acc', split);
      assert DirNames(dirs) == (if dirs[0].isDir then {name} else {}) + DirNames(dirs[1..]) by {
        forall x | x in DirNames(dirs) ensures x in (if dirs[0].isDir then {name} else {}) + DirNames(dirs[1..]) {
          var k :| 0 <= k < |dirs| && dirs[k].isDir && dirs[k].name == x;
          if k > 0 {
            assert dirs[1..][k - 1] == dirs[k];
          }
        }
        forall x | x in DirNames(dirs[1..]) ensures x in DirNames(dirs) {
          var k :| 0 <= k < |dirs[1..]| && dirs[1..][k].isDir && dirs[1..][k].name == x;
          assert dirs[k + 1] == dirs[1..][k];
        }
      }
    }
  }

  /** Collections of CDPs whose directories are not listed are left as they were. */
  lemma {:induction false} IngestAllFrame(store: map<string, seq<Entry>>, dirs: seq<DirEntry>, acc: set<string>,
                                          split: string -> seq<string>, name: string)
    requires name !in DirNames(dirs)
    ensures var st := IngestAll(store, dirs, acc, split).0;
      (name in st <==> name in store) && (name in store ==> st[name] == store[name])
    decreases |dirs|
  {
    if dirs != [] {
      assert name !in DirNames(dirs[1..]);
      if dirs[0].isDir {
        assert dirs[0].name != name;
        var n := dirs[0].name;
        var run := Run(n, dirs[0].files, split);
        IngestAllFrame(store[n := Stored(store, n) + run.added], dirs[1..], acc + {n}, split, name);
      } else {
        IngestAllFrame(store, dirs[1..], acc, split, name);
      }
    }
  }

  // ---------------------------------------------------------------- the processor

  /** A `DocumentProcessor`: the persistent Chroma client's collections, by name. */
  class DocumentProcessor {
    var collections: map<string, seq<Entry>>

    /** Opens the store as it already exists on disk. */
    constructor (existing: map<string, seq<Entry>>)
      ensures collections == existing
    {
      collections := existing;
    }

    /** `load_vectorstore`: the named collection, or `None` when it does not exist. */
    function LoadVectorstore(name: string): (r: Option<seq<Entry>>)
      reads this
      ensures r.Some? <==> name in collections
      ensures r.Some? ==> r.value == collections[name]
    {
      if name in collections then Some(collections[name]) else None
    }

    /**
     * The inner loop of `process_cdp_docs` over the chunks of the document
     * numbered `doc`: one `collection.add` per chunk, whose metadata reads
     * 'source', 'title' and 'url'.
     */
    method AddDocument(cdp: string, doc: nat, fields: map<string, string>, split: string -> seq<string>)
      returns (err: Option<string>)
      requires cdp in collections
      modifies this
      ensures err == ErrorOf(DocumentEntries(cdp, doc, fields, split))
      ensures collections == old(collections)[cdp := old(collections)[cdp] + EntriesOf(DocumentEntries(cdp, doc, fields, split))]
    {
      if "content" !in fields {
        assert old(collections)[cdp] + [] == old(collections)[cdp];
        assert collections == old(collections)[cdp := old(collections)[cdp]];
        return Some("content");
      }
      var splits := split(fields["content"]);
      ghost var before := collections[cdp];
      var i := 0;
      ghost var batch: seq<Entry> := [];
      assert before + batch == before;
      while i < |splits|
        invariant 0 <= i <= |splits|
        invariant i > 0 ==> "source" in fields && "title" in fields && "url" in fields
        invariant |batch| == i
        invariant forall j :: 0 <= j < i ==> batch[j] == ChunkEntry(cdp, doc, fields, splits, j)
        invariant collections == old(collections)[cdp := before + batch]
      {
        if "source" !in fields || "title" !in fields || "url" !in fields {
          assert collections == old(collections)[cdp := old(collections)[cdp] + []];
          if "source" !in fields {
            return Some("source");
          }
          if "title" !in fields {
            return Some("title");
          }
          return Some("url");
        }
        var metadata := ChunkMetadata(fields["source"], fields["title"], fields["url"],
                                      i, |splits|, Classify(splits[i]));
        var entry := Entry(ChunkId(cdp, doc, i), splits[i], metadata);
        assert (before + batch) + [entry] == before + (batch + [entry]);
        collections := collections[cdp := collections[cdp] + [entry]];
        batch := batch + [entry];
        i := i + 1;
      }
      if |splits| == 0 {
        assert collections == old(collections)[cdp := old(collections)[cdp] + []];
      } else {
        assert DocumentEntries(cdp, doc, fields, split) == Added(batch);
      }
      err := None;
    }

    /** The loop of `process_cdp_docs` over the listed files, once the collection exists. */
    method AddFiles(cdp: string, files: seq<DataFile>, split: string -> seq<string>) returns (r: Ingested)
      requires cdp in collections
      modifies this
      ensures var run := Run(cdp, files, split);
        collections == old(collections)[cdp := old(collections)[cdp] + run.added] &&
        r == if run.error.Some? then Raised(run.error.value) else Processed(run.count)
    {
      ghost var start := collections[cdp];
      assert start + [] == start;
      var documentCount := 0;
      ghost var added: seq<Entry> := [];
      var k := 0;
      while k < |files|
        invariant 0 <= k <= |files|
        invariant Run(cdp, files[..k], split) == RunState(documentCount, added, None)
        invariant collections == old(collections)[cdp := start + added]
      {
        var f := files[k];
        assert files[..k + 1] == files[..k] + [f];
        RunSnoc(cdp, files[..k], f, split);
        ghost var prev := RunState(documentCount, added, None);
        if EndsWith(f.name, ".json") && f.data.Object? {
          ghost var out := DocumentEntries(cdp, documentCount, f.data.fields, split);
          StepParsed(cdp, prev, f, split);
          var err := AddDocument(cdp, documentCount, f.data.fields, split);
          if err.Some? {
            assert start + added + [] == start + added;
            RunStopsAtError(cdp, files, split, k + 1);
            return Raised(err.value);
          }
          ghost var es := EntriesOf(out);
          assert (start + added) + es == start + (added + es);
          added := added + es;
          documentCount := documentCount + 1;
        } else {
          assert Step(cdp, prev, f, split) == prev;
        }
        k := k + 1;
      }
      assert files[..k] == files;
      r := Processed(documentCount);
    }

    /**
     * `process_cdp_docs`. `dir` is the CDP's data directory listing, `None`
     * when it does not exist; the collection is created when it is missing.
     */
    method ProcessCdpDocs(cdp: string, dir: Option<seq<DataFile>>, split: string -> seq<string>)
      returns (r: Ingested)
      modifies this
      ensures dir.None? ==> r == NoDataDir && collections == old(collections)
      ensures dir.Some? ==>
        var run := Run(cdp, dir.value, split);
        collections == old(collections)[cdp := Stored(old(collections), cdp) + run.added] &&
        r == if run.error.Some? then Raised(run.error.value) else Processed(run.count)
    {
      if dir.None? {
        return NoDataDir;
      }
      // get_or_create_collection
      if cdp !in collections {
        collections := collections[cdp := []];
      }
      r := AddFiles(cdp, dir.value, split);
    }

    /**
     * `process_all_cdps`: every listed directory is processed, in listing
     * order, and its name becomes a key of the result.
     */
    method ProcessAllCdps(dirs: seq<DirEntry>, split: string -> seq<string>) returns (r: AllIngested)
      modifies this
      ensures (collections, r) == IngestAll(old(collections), dirs, {}, split)
    {
      var results: set<string> := {};
      var k := 0;
      while k < |dirs|
        invariant 0 <= k <= |dirs|
        invariant IngestAll(collections, dirs[k..], results, split) == IngestAll(old(collections), dirs, {}, split)
      {
        var entry := dirs[k];
        assert dirs[k..][1..] == dirs[k + 1..];
        if entry.isDir {
          var outcome := ProcessCdpDocs(entry.name, Some(entry.files), split);
          match outcome {
            case Raised(key) =>
              return AllRaised(key);
            case Processed(_) =>
              results := results + {entry.name};
          }
        }
        k := k + 1;
      }
      r := AllProcessed(results);
    }
  }
}
