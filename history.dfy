/** The download history: a newest-first list of at most 100 records kept in
    one JSON document that every operation reads and rewrites whole (history.py). */
module History {
  import opened Text

  /** The most records the history keeps. */
  const Cap := 100

  /** One entry: `url`, `title`, `format` ("audio" or "video"), `path` and `date`. */
  datatype Record = Record(url: string, title: string, format: string, path: string, date: string)

  /** The history file as the loader finds it: absent, unreadable (an I/O or
      JSON error), or a document whose `downloads` entry is a list of records
      (`None` when that entry is missing or is not a list). */
  datatype Document = Missing | Unreadable | Stored(downloads: Option<seq<Record>>)

  /** What `historico["downloads"]` raises on a document without that entry. */
  const KeyErrorMessage := "'downloads'"

  /** `carregar_historico()["downloads"]`. */
  function Downloads(doc: Document): (r: Result<seq<Record>>)
    ensures doc.Missing? || doc.Unreadable? ==> r == Ok([])
    ensures doc.Stored? && doc.downloads.Some? ==> r == Ok(doc.downloads.value)
    ensures r.Err? <==> doc.Stored? && doc.downloads.None?
  {
    match doc
    case Missing => Ok([])
    case Unreadable => Ok([])
    case Stored(d) => if d.Some? then Ok(d.value) else Err(KeyErrorMessage)
  }

  function Min(a: int, b: int): int {
    if a <= b then a else b
  }

  /** The list after `insert(0, record)` and truncation to the first 100:
      the new record first, then the previous entries in order, the oldest
      dropped when the cap is exceeded. */
  function Pushed(list: seq<Record>, rec: Record): (r: seq<Record>)
    ensures |r| == Min(|list| + 1, Cap)
    ensures r[0] == rec
    ensures r[1..] == list[..|r| - 1]
  {
    var l := [rec] + list;
    if |l| > Cap then l[..Cap] else l
  }

  /** The file after `salvar_historico(data)`: the new document when it is
      written whole, the old one when `open` fails, and a file the loader
      cannot parse when the dump fails after the truncation. */
  function AfterSave(doc: Document, data: Document, save: Save): (r: Document)
    ensures save.Saved? ==> r == data
    ensures save.OpenFails? ==> r == doc
    ensures save.DumpFails? ==> Downloads(r) == Ok([])
  {
    match save
    case Saved => data
    case OpenFails => doc
    case DumpFails => Unreadable
  }

  /** `adicionar_ao_historico` as a whole: the result it returns (the save's
      success, or the KeyError it lets escape) and the file afterwards. */
  function Appended(doc: Document, rec: Record, save: Save): (r: (Result<bool>, Document))
    ensures Downloads(doc).Err? ==> r == (Err(KeyErrorMessage), doc)
    ensures Downloads(doc).Ok? ==> r.0 == Ok(save.Saved?)
    ensures Downloads(doc).Ok? && save.Saved? ==> r.1 == Stored(Some(Pushed(Downloads(doc).value, rec)))
    ensures save.OpenFails? ==> r.1 == doc
    ensures Downloads(doc).Ok? && save.DumpFails? ==> Downloads(r.1) == Ok([])
  {
    match Downloads(doc)
    case Err(e) => (Err(e), doc)
    case Ok(list) => (Ok(save.Saved?), AfterSave(doc, Stored(Some(Pushed(list, rec))), save))
  }

  /** A dump that fails after the truncation loses every earlier record: the
      next addition that saves leaves the new record alone in the history. */
  lemma DumpFailureLosesHistory(doc: Document, lost: Record, rec: Record)
    requires Downloads(doc).Ok?
    ensures Appended(Appended(doc, lost, DumpFails).1, rec, Saved).1 == Stored(Some([rec]))
  {
    var after := Appended(doc, lost, DumpFails).1;
    assert Downloads(after) == Ok([]);
    assert Pushed([], rec) == [rec];
  }

  /** Python's `s[:n]`, where a negative `n` counts from the end. */
  function PrefixSlice<T>(s: seq<T>, n: int): (r: seq<T>)
    ensures n >= 0 ==> r == s[..Min(n, |s|)]
    ensures n < 0 ==> r == s[..if |s| + n < 0 then 0 else |s| + n]
  {
    if n >= |s| then s
    else if n >= 0 then s[..n]
    else if |s| + n < 0 then []
    else s[..|s| + n]
  }

  class HistoryFile {
    var doc: Document

    constructor (doc: Document)
      ensures this.doc == doc
    {
      this.doc := doc;
    }

    /** `adicionar_ao_historico(url, title, format_type, file_path)`: load,
        insert the new record at the head, cut back to 100, save. `date` is
        the formatted `datetime.now()`; `save` is how the save turns out. */
    method Add(url: string, title: string, format: string, path: string, date: string, save: Save)
      returns (r: Result<bool>)
      modifies this
      ensures (r, doc) == Appended(old(doc), Record(url, title, format, path, date), save)
    {
      var loaded := Downloads(doc);
      if loaded.Err? {
        return Err(loaded.message);
      }
      var downloads := loaded.value;
      var record := Record(url, title, format, path, date);
      downloads := [record] + downloads;
      if |downloads| > Cap {
        downloads := downloads[..Cap];
      }
      doc := AfterSave(doc, Stored(Some(downloads)), save);
      return Ok(save.Saved?);
    }

    /** `limpar_historico()`: saves a document with an empty list. */
    method Clear(save: Save) returns (ok: bool)
      modifies this
      ensures ok == save.Saved?
      ensures doc == AfterSave(old(doc), Stored(Some([])), save)
      ensures !save.OpenFails? ==> Downloads(doc) == Ok([])
    {
      doc := AfterSave(doc, Stored(Some([])), save);
      return save.Saved?;
    }

    /** `obter_downloads_recentes(limit=10)`: the first `limit` records; the file is only read. */
    method Recent(limit: int := 10) returns (r: Result<seq<Record>>)
      ensures Downloads(doc).Err? ==> r == Err(KeyErrorMessage)
      ensures Downloads(doc).Ok? && limit >= 0 ==>
                r == Ok(Downloads(doc).value[..Min(limit, |Downloads(doc).value|)])
      ensures Downloads(doc).Ok? ==> r == Ok(PrefixSlice(Downloads(doc).value, limit))
    {
      var loaded := Downloads(doc);
      if loaded.Err? {
        return Err(loaded.message);
      }
      return Ok(PrefixSlice(loaded.value, limit));
    }
  }

  // ---------------------------------------------------------------------------
  // Many additions in a row
  // ---------------------------------------------------------------------------

  /** The records in the opposite order: the last one added comes first. */
  function Reverse<T>(s: seq<T>): (r: seq<T>)
    ensures |r| == |s|
  {
    if s == [] then [] else Reverse(s[1..]) + [s[0]]
  }

  /** Position `i` of the reversal holds the `i`-th record from the end. */
  lemma {:induction false} ReverseAt<T>(s: seq<T>, i: nat)
    requires i < |s|
    ensures Reverse(s)[i] == s[|s| - 1 - i]
    decreases |s|
  {
    if i < |s| - 1 {
      ReverseAt(s[1..], i);
    }
  }

  /** The list after adding `recs` one after the other, `recs[0]` first. */
  function AddAll(list: seq<Record>, recs: seq<Record>): seq<Record> {
    if recs == [] then list else Pushed(AddAll(list, recs[..|recs| - 1]), recs[|recs| - 1])
  }

  lemma {:induction false} ReverseSnoc<T>(s: seq<T>, x: T)
    ensures Reverse(s + [x]) == [x] + Reverse(s)
    decreases |s|
  {
    if s == [] {
      assert s + [x] == [x];
    } else {
      assert (s + [x])[1..] == s[1..] + [x];
      ReverseSnoc(s[1..], x);
    }
  }

  /** After any number of additions the history holds the most recent ones,
      newest first, followed by what it held before, cut back to 100. */
  lemma {:induction false} AddAllNewestFirst(list: seq<Record>, recs: seq<Record>)
    requires |list| <= Cap
    ensures AddAll(list, recs) == (Reverse(recs) + list)[..Min(|recs| + |list|, Cap)]
    decreases |recs|
  {
    if recs != [] {
      var init, last := recs[..|recs| - 1], recs[|recs| - 1];
      assert recs == init + [last];
      AddAllNewestFirst(list, init);
      ReverseSnoc(init, last);
      var before := (Reverse(init) + list)[..Min(|init| + |list|, Cap)];
      var after := Pushed(before, last);
      var want := (Reverse(recs) + list)[..Min(|recs| + |list|, Cap)];
      assert Reverse(recs) + list == [last] + (Reverse(init) + list);
      assert |after| == |want|;
      forall i | 0 <= i < |after| ensures after[i] == want[i] {
        if i > 0 {
          assert after[i] == after[1..][i - 1] == before[i - 1];
        }
      }
    }
  }

  /** Adding 101 records to an empty history leaves 100 of them, the last one
      added first, and a recent-read of one returns exactly that record. */
  lemma HundredAndOne(recs: seq<Record>)
    requires |recs| == 101
    ensures |AddAll([], recs)| == 100
    ensures AddAll([], recs)[0] == recs[100]
    ensures PrefixSlice(AddAll([], recs), 1) == [recs[100]]
  {
    AddAllNewestFirst([], recs);
    ReverseSnoc(recs[..100], recs[100]);
    assert recs == recs[..100] + [recs[100]];
  }
}
