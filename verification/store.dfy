/** The server-side demand store of srv.js: normalisation of the category
    documents on load, the persisted shape on save, the category rename table
    and its reverse lookup, and lookup of a demand by id across categories.
    File-system access is replaced by the directory listing it returns. */
module Store {
  import opened Common
  import opened OrderedMap
  import opened Demands

  /** A record as parsed from a category document. Every field the loader
      defaults is optional; `category` and `totalVotes` are read but always
      overwritten. */
  datatype RawRecord = RawRecord(
    id: Option<string>,
    category: Option<string>,
    revendication: string,
    votes: Option<Votes>,
    totalVotes: Option<int>,
    ricType: Option<string>,
    priority: Option<string>,
    totalScore: Option<int>)

  /** One entry of the data directory. `content` is None when reading or
      parsing the file throws (or when it is not a JSON array). */
  datatype DirEntry = DirEntry(fileName: string, content: Option<seq<RawRecord>>)

  /** A whole-document write: the file name and the array written to it. */
  datatype Document = Document(fileName: string, records: seq<RawRecord>)

  const AnalysisLogFile := "analysis_log.json"
  const DefaultRicType := "Législatif"
  const DefaultPriority := "Faible"

  /** `CATEGORY_MAP`: file stems with historical misspellings and the key
      each one is filed under. */
  const CategoryMap: Assoc<string, string> :=
    [("demcratie", "democratie"), ("internationnal", "international")]

  /** `file.endsWith('.json') && file !== 'analysis_log.json'`. */
  predicate IsCategoryFile(fileName: string)
  {
    EndsWith(fileName, ".json") && fileName != AnalysisLogFile
  }

  /** `path.parse(file).name` for a file name ending in ".json": the
      extension is dropped, except for the dot-file ".json" itself, whose
      name is the whole base. */
  function Stem(fileName: string): (s: string)
    requires EndsWith(fileName, ".json")
    ensures s != ""
    ensures fileName != ".json" ==> s + ".json" == fileName
  {
    if fileName == ".json" then fileName else fileName[..|fileName| - 5]
  }

  /** `CATEGORY_MAP[name] || name`. */
  function CategoryKeyOf(name: string): (key: string)
    ensures HasKey(CategoryMap, name) ==> key == Get(CategoryMap, name, name)
    ensures !HasKey(CategoryMap, name) ==> key == name
  {
    StringOr(if HasKey(CategoryMap, name) then Some(Get(CategoryMap, name, name)) else None, name)
  }

  /** The first key of `m` whose value is `v`, if any. */
  function KeyForValue(m: Assoc<string, string>, v: string): (r: Option<string>)
    ensures r.Some? ==> exists i :: 0 <= i < |m| && m[i] == (r.value, v)
    ensures r.None? ==> forall i :: 0 <= i < |m| ==> m[i].1 != v
  {
    if m == [] then None
    else if m[0].1 == v then Some(m[0].0)
    else KeyForValue(m[1..], v)
  }

  /** The file stem a category is saved under: the reverse lookup of the
      rename table, or the key itself. */
  function FileStemOf(key: string): string
  {
    StringOr(KeyForValue(CategoryMap, key), key)
  }

  /** The in-memory demand built from the record at `index` of category `key`. */
  function Normalise(key: string, index: nat, item: RawRecord): (d: Demand)
    ensures Consistent(d)
    ensures d.category == key && d.revendication == item.revendication
    ensures d.id == StringOr(item.id, key + "-" + NatToString(index))
    ensures d.votes == item.votes.GetOr(ZeroVotes)
    ensures d.ricType == StringOr(item.ricType, DefaultRicType)
    ensures d.priority == StringOr(item.priority, DefaultPriority)
    ensures d.totalScore == IntOrZero(item.totalScore)
  {
    var rawTotal :=
      if item.votes.Some? then
        CounterOrZero(item.votes.value, Oui) + CounterOrZero(item.votes.value, Non)
          + CounterOrZero(item.votes.value, Abstention)
      else 0 + 0 + 0;
    Demand(
      id := StringOr(item.id, key + "-" + NatToString(index)),
      category := key,
      revendication := item.revendication,
      votes := item.votes.GetOr(ZeroVotes),
      totalVotes := rawTotal,
      ricType := StringOr(item.ricType, DefaultRicType),
      priority := StringOr(item.priority, DefaultPriority),
      totalScore := IntOrZero(item.totalScore))
  }

  /** What every loaded demand of category `key` satisfies. */
  predicate Normalised(key: string, d: Demand)
  {
    && Consistent(d)
    && d.category == key
    && d.id != ""
    && d.ricType != ""
    && d.priority != ""
  }

  /** The `.map((item, index) => ...)` over one category document. */
  function LoadCategory(key: string, items: seq<RawRecord>): (ds: seq<Demand>)
    ensures |ds| == |items|
    ensures forall i :: 0 <= i < |items| ==> ds[i] == Normalise(key, i, items[i])
    ensures forall i :: 0 <= i < |ds| ==> Normalised(key, ds[i])
  {
    seq(|items|, i requires 0 <= i < |items| => Normalise(key, i, items[i]))
  }

  /** A corpus as the loader leaves it. */
  predicate Loaded(c: Corpus)
  {
    && DistinctKeys(c)
    && forall k, j :: 0 <= k < |c| && 0 <= j < |c[k].1| ==> Normalised(c[k].0, c[k].1[j])
  }

  lemma LoadedIsConsistent(c: Corpus)
    requires Loaded(c)
    ensures AllConsistent(c)
  {
  }

  predicate AllReadable(files: seq<DirEntry>)
  {
    forall i :: 0 <= i < |files| && IsCategoryFile(files[i].fileName) ==> files[i].content.Some?
  }

  /** The key a category file is filed under. */
  function KeyOfFile(fileName: string): string
    requires IsCategoryFile(fileName)
  {
    CategoryKeyOf(Stem(fileName))
  }

  /** The loop over the directory listing. Two files filed under the same key
      overwrite one another in place; an unreadable category file throws,
      and the outer handler leaves the corpus as built so far. */
  function LoadFiles(files: seq<DirEntry>, acc: Corpus): Corpus
  {
    if files == [] then acc
    else
      var f := files[0];
      if !IsCategoryFile(f.fileName) then LoadFiles(files[1..], acc)
      else
        match f.content
        case None => acc
        case Some(items) =>
          var key := KeyOfFile(f.fileName);
          LoadFiles(files[1..], Put(acc, key, LoadCategory(key, items)))
  }

  /** Some category file of `files` is filed under `k`. */
  predicate FiledUnder(files: seq<DirEntry>, k: string)
  {
    exists i :: 0 <= i < |files| && IsCategoryFile(files[i].fileName) && KeyOfFile(files[i].fileName) == k
  }

  lemma FiledUnderTail(files: seq<DirEntry>, k: string)
    requires files != [] && FiledUnder(files[1..], k)
    ensures FiledUnder(files, k)
  {
    var i :| 0 <= i < |files[1..]| && IsCategoryFile(files[1..][i].fileName) && KeyOfFile(files[1..][i].fileName) == k;
    assert files[i + 1] == files[1..][i];
  }

  lemma AllReadableTail(files: seq<DirEntry>)
    requires files != [] && AllReadable(files)
    ensures AllReadable(files[1..])
  {
    forall i | 0 <= i < |files[1..]| && IsCategoryFile(files[1..][i].fileName)
      ensures files[1..][i].content.Some?
    {
      assert files[1..][i] == files[i + 1];
    }
  }

  /** Putting a freshly loaded category keeps a corpus loaded. */
  lemma PutLoaded(acc: Corpus, key: string, ds: seq<Demand>)
    requires Loaded(acc)
    requires forall j :: 0 <= j < |ds| ==> Normalised(key, ds[j])
    ensures Loaded(Put(acc, key, ds))
  {
    var acc' := Put(acc, key, ds);
    PutKeepsDistinct(acc, key, ds);
    PutShape(acc, key, ds);
    forall k, j | 0 <= k < |acc'| && 0 <= j < |acc'[k].1| ensures Normalised(acc'[k].0, acc'[k].1[j]) {
      if HasKey(acc, key) {
        if k != IndexOf(acc, key) { assert acc'[k] == acc[k]; }
      } else {
        if k < |acc| { assert acc'[k] == acc[k]; }
      }
    }
  }

  /** The loader keeps a loaded corpus loaded, files every key under some
      category file, and, when every category file is readable, files every
      category file's key. */
  lemma {:induction false} LoadFilesProperties(files: seq<DirEntry>, acc: Corpus)
    ensures Loaded(acc) ==> Loaded(LoadFiles(files, acc))
    ensures forall k :: HasKey(acc, k) ==> HasKey(LoadFiles(files, acc), k)
    ensures forall k :: HasKey(LoadFiles(files, acc), k) ==> HasKey(acc, k) || FiledUnder(files, k)
    ensures AllReadable(files) ==>
      forall i :: 0 <= i < |files| && IsCategoryFile(files[i].fileName) ==>
        HasKey(LoadFiles(files, acc), KeyOfFile(files[i].fileName))
    decreases |files|
  {
    if files == [] {
    } else {
      var f := files[0];
      var r := LoadFiles(files, acc);
      if !IsCategoryFile(f.fileName) {
        LoadFilesProperties(files[1..], acc);
        forall k | HasKey(r, k) && !HasKey(acc, k) ensures FiledUnder(files, k) {
          FiledUnderTail(files, k);
        }
        if AllReadable(files) {
          AllReadableTail(files);
          forall i | 0 <= i < |files| && IsCategoryFile(files[i].fileName)
            ensures HasKey(r, KeyOfFile(files[i].fileName))
          {
            assert i != 0;
            assert files[i] == files[1..][i - 1];
          }
        }
      } else if f.content.Some? {
        var key := KeyOfFile(f.fileName);
        var ds := LoadCategory(key, f.content.value);
        var acc' := Put(acc, key, ds);
        assert r == LoadFiles(files[1..], acc');
        forall k ensures HasKey(acc', k) <==> k == key || HasKey(acc, k) {
          PutHasKey(acc, key, ds, k);
        }
        if Loaded(acc) { PutLoaded(acc, key, ds); }
        LoadFilesProperties(files[1..], acc');
        forall k | HasKey(r, k) && !HasKey(acc, k) ensures FiledUnder(files, k) {
          if k == key {
            assert IsCategoryFile(files[0].fileName) && KeyOfFile(files[0].fileName) == k;
          } else {
            FiledUnderTail(files, k);
          }
        }
        if AllReadable(files) {
          AllReadableTail(files);
          forall i | 0 <= i < |files| && IsCategoryFile(files[i].fileName)
            ensures HasKey(r, KeyOfFile(files[i].fileName))
          {
            if i > 0 { assert files[i] == files[1..][i - 1]; }
          }
        }
      }
    }
  }

  /** `loadAllRevendications` for the category documents: `None` when the
      directory cannot be listed, in which case the previous corpus stays. */
  function LoadAll(previous: Corpus, listing: Option<seq<DirEntry>>): (r: Corpus)
  {
    match listing
    case None => previous
    case Some(files) => LoadFiles(files, [])
  }

  /** After a successful listing the corpus is loaded, each key comes from
      some category file, and with every file readable each category file
      contributes its key; a failed listing keeps the previous corpus. */
  lemma LoadAllProperties(previous: Corpus, listing: Option<seq<DirEntry>>)
    ensures listing.None? ==> LoadAll(previous, listing) == previous
    ensures listing.Some? ==> Loaded(LoadAll(previous, listing))
    ensures listing.Some? ==> forall k :: HasKey(LoadAll(previous, listing), k) ==> FiledUnder(listing.value, k)
    ensures listing.Some? && AllReadable(listing.value) ==>
      forall i :: 0 <= i < |listing.value| && IsCategoryFile(listing.value[i].fileName) ==>
        HasKey(LoadAll(previous, listing), KeyOfFile(listing.value[i].fileName))
  {
    if listing.Some? {
      LoadFilesProperties(listing.value, []);
    }
  }

  /** One record as `saveRevendications` writes it: `totalVotes` stripped,
      `totalScore` kept, every other field as in memory. */
  function SaveRecord(d: Demand): (r: RawRecord)
    ensures r.totalVotes.None?
    ensures r.totalScore == Some(d.totalScore)
    ensures r.id == Some(d.id) && r.category == Some(d.category) && r.revendication == d.revendication
    ensures r.votes == Some(d.votes) && r.ricType == Some(d.ricType) && r.priority == Some(d.priority)
  {
    RawRecord(
      id := Some(d.id),
      category := Some(d.category),
      revendication := d.revendication,
      votes := Some(d.votes),
      totalVotes := None,
      ricType := Some(d.ricType),
      priority := Some(d.priority),
      totalScore := Some(d.totalScore))
  }

  /** `saveRevendications(key)`: the document that rewrites the category. */
  function SaveCategory(key: string, ds: seq<Demand>): (doc: Document)
    ensures doc.fileName == FileStemOf(key) + ".json"
    ensures |doc.records| == |ds|
    ensures forall i :: 0 <= i < |ds| ==> doc.records[i] == SaveRecord(ds[i])
  {
    Document(FileStemOf(key) + ".json", seq(|ds|, i requires 0 <= i < |ds| => SaveRecord(ds[i])))
  }

  /** Saving then loading a record gives the demand back. */
  lemma NormaliseSaveRecord(key: string, index: nat, d: Demand)
    requires Normalised(key, d)
    ensures Normalise(key, index, SaveRecord(d)) == d
  {
  }

  /** The rename table read backwards undoes it: the stem a key is saved
      under maps back to that key, and is never empty. */
  lemma RenameRoundTrip(stem: string)
    requires stem != ""
    ensures FileStemOf(CategoryKeyOf(stem)) != ""
    ensures CategoryKeyOf(FileStemOf(CategoryKeyOf(stem))) == CategoryKeyOf(stem)
    ensures FileStemOf(CategoryKeyOf(stem)) == "analysis_log" ==> stem == "analysis_log"
  {
    assert CategoryMap[0] == ("demcratie", "democratie") && CategoryMap[1] == ("internationnal", "international");
    if stem == "demcratie" || stem == "democratie" {
      assert CategoryKeyOf(stem) == "democratie";
      assert KeyForValue(CategoryMap, "democratie") == Some("demcratie");
    } else if stem == "internationnal" || stem == "international" {
      assert CategoryKeyOf(stem) == "international";
      assert KeyForValue(CategoryMap, "international") == Some("internationnal");
    } else {
      assert !HasKey(CategoryMap, stem);
      assert KeyForValue(CategoryMap, stem) == None;
    }
  }

  /** A non-empty stem other than the log's, with ".json" appended, is a
      category file whose stem is that stem again. */
  lemma StemOfSavedName(out: string)
    requires out != "" && out != "analysis_log"
    ensures IsCategoryFile(out + ".json")
    ensures Stem(out + ".json") == out
  {
    var saved := out + ".json";
    assert saved[|saved| - 5..] == ".json";
    assert saved[..|saved| - 5] == out;
    assert AnalysisLogFile[..|AnalysisLogFile| - 5] == "analysis_log";
  }

  /** A key produced by the loader is saved to a category file that the
      loader files under the same key again: 'democratie' is written to
      'demcratie.json', which reloads as 'democratie'. */
  lemma SavedFileReloadsToSameKey(fileName: string)
    requires IsCategoryFile(fileName)
    ensures IsCategoryFile(FileStemOf(KeyOfFile(fileName)) + ".json")
    ensures KeyOfFile(FileStemOf(KeyOfFile(fileName)) + ".json") == KeyOfFile(fileName)
  {
    var stem := Stem(fileName);
    RenameRoundTrip(stem);
    assert "analysis_log" + ".json" == AnalysisLogFile;
    StemOfSavedName(FileStemOf(KeyOfFile(fileName)));
  }

  /** Loading a saved category document yields the same category, with the
      same demands in the same order. */
  lemma SaveThenLoad(fileName: string, ds: seq<Demand>)
    requires IsCategoryFile(fileName)
    requires forall i :: 0 <= i < |ds| ==> Normalised(KeyOfFile(fileName), ds[i])
    ensures var doc := SaveCategory(KeyOfFile(fileName), ds);
      LoadAll([], Some([DirEntry(doc.fileName, Some(doc.records))])) == [(KeyOfFile(fileName), ds)]
  {
    var key := KeyOfFile(fileName);
    var doc := SaveCategory(key, ds);
    SavedFileReloadsToSameKey(fileName);
    var loaded := LoadCategory(key, doc.records);
    forall i | 0 <= i < |ds| ensures loaded[i] == ds[i] {
      NormaliseSaveRecord(key, i, ds[i]);
    }
    assert loaded == ds;
    var files := [DirEntry(doc.fileName, Some(doc.records))];
    assert LoadFiles(files, []) == LoadFiles(files[1..], Put([], key, loaded));
    assert files[1..] == [];
  }

  /** Where a demand with `id` sits in `ds`: the first match. */
  function FindIn(ds: seq<Demand>, id: string): (r: Option<nat>)
    ensures r.Some? ==> r.value < |ds| && ds[r.value].id == id
    ensures r.Some? ==> forall j :: 0 <= j < r.value ==> ds[j].id != id
    ensures r.None? ==> forall j :: 0 <= j < |ds| ==> ds[j].id != id
  {
    if ds == [] then None
    else if ds[0].id == id then Some(0)
    else match FindIn(ds[1..], id)
      case None => None
      case Some(j) => Some(j + 1)
  }

  /** `loc` is the first demand with `id` in category order, then list order. */
  predicate FirstMatch(c: Corpus, id: string, loc: Location)
  {
    && ValidLocation(c, loc)
    && At(c, loc).id == id
    && (forall k, j :: 0 <= k < loc.cat && 0 <= j < |c[k].1| ==> c[k].1[j].id != id)
    && (forall j :: 0 <= j < loc.pos ==> c[loc.cat].1[j].id != id)
  }

  /** `findRevendicationById`. */
  function FindById(c: Corpus, id: string): (r: Option<Location>)
    ensures r.Some? ==> FirstMatch(c, id, r.value)
    ensures r.None? ==> forall k, j :: 0 <= k < |c| && 0 <= j < |c[k].1| ==> c[k].1[j].id != id
  {
    if c == [] then None
    else match FindIn(c[0].1, id)
      case Some(j) => Some(Location(0, j))
      case None =>
        match FindById(c[1..], id)
        case None => None
        case Some(loc) => Some(Location(loc.cat + 1, loc.pos))
  }
}
