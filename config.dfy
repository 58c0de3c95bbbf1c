/** The settings file and its defaults (config.py). */
module Config {
  import opened Text

  /** A JSON value as stored in the settings file; nested arrays and objects are kept as their text. */
  datatype Value = Null | Bool(b: bool) | Number(n: int) | Str(s: string) | Raw(json: string)

  /** `CONFIG_PADRAO`. */
  function DefaultMap(): map<string, Value> {
    map[
      "default_path" := Str("C:/downloads"),
      "audio_quality" := Str("320"),
      "theme" := Str("dark"),
      "video_format" := Str("mp4"),
      "video_quality" := Str("720p"),
      "apply_metadata" := Bool(true),
      "save_thumbnails" := Bool(true)
    ]
  }

  /** The settings file as the loader finds it: absent, unreadable (an I/O or JSON error), or a JSON object. */
  datatype Document = Missing | Unreadable | Stored(entries: map<string, Value>)

  /** The settings in force for a file: what it stores, with every default key
      it lacks filled in; the bare defaults when there is no usable file. */
  function Effective(doc: Document): (r: map<string, Value>)
    ensures forall k :: k in DefaultMap() ==> k in r
    ensures doc.Stored? ==> forall k :: k in doc.entries ==> k in r && r[k] == doc.entries[k]
    ensures forall k :: k in r && !(doc.Stored? && k in doc.entries) ==> k in DefaultMap() && r[k] == DefaultMap()[k]
  {
    match doc
    case Stored(entries) => DefaultMap() + entries
    case _ => DefaultMap()
  }

  /** The file after `salvar_config(data)`: the new object when it is
      written whole, the old file when `open` fails, and a file the loader
      cannot parse when the dump fails after the truncation. */
  function AfterSave(doc: Document, data: map<string, Value>, save: Save): (r: Document)
    ensures save.Saved? ==> r == Stored(data)
    ensures save.OpenFails? ==> r == doc
    ensures save.DumpFails? ==> Effective(r) == DefaultMap()
  {
    match save
    case Saved => Stored(data)
    case OpenFails => doc
    case DumpFails => Unreadable
  }

  class ConfigFile {
    var doc: Document

    constructor (doc: Document)
      ensures this.doc == doc
    {
      this.doc := doc;
    }

    /** `carregar_config()`: the stored object with each missing default key
        inserted, one key at a time; a copy of the defaults when the file is
        absent or cannot be read. The file itself is not written. */
    method Load() returns (config: map<string, Value>)
      ensures forall k :: k in DefaultMap() ==> k in config
      ensures doc.Stored? ==> forall k :: k in doc.entries ==> k in config && config[k] == doc.entries[k]
      ensures forall k :: k in config ==> k in DefaultMap() || (doc.Stored? && k in doc.entries)
      ensures !doc.Stored? ==> config == DefaultMap()
      ensures config == Effective(doc)
    {
      if !doc.Stored? {
        return DefaultMap();
      }
      var entries := doc.entries;
      config := entries;
      var pending := DefaultMap().Keys;
      while pending != {}
        invariant pending <= DefaultMap().Keys
        invariant forall k :: k in config <==> k in entries || (k in DefaultMap() && k !in pending)
        invariant forall k :: k in entries ==> config[k] == entries[k]
        invariant forall k :: k in config && k !in entries ==> config[k] == DefaultMap()[k]
        decreases pending
      {
        var key :| key in pending;
        if key !in config {
          config := config[key := DefaultMap()[key]];
        }
        pending := pending - {key};
      }
      assert config.Keys == (DefaultMap() + entries).Keys;
    }

    /** `obter_valor_config(key, default=None)`: the effective value, or the
        caller's default when the key is absent even after the defaults are filled in. */
    method Get(key: string, default: Value := Null) returns (v: Value)
      ensures key in Effective(doc) ==> v == Effective(doc)[key]
      ensures key !in Effective(doc) ==> v == default
      ensures key in DefaultMap() && !(doc.Stored? && key in doc.entries) ==> v == DefaultMap()[key]
    {
      var config := Load();
      v := if key in config then config[key] else default;
    }

    /** `atualizar_valor_config(key, value)`: load, set one key, save;
        `save` is how the save turns out. */
    method Update(key: string, value: Value, save: Save) returns (ok: bool)
      modifies this
      ensures ok == save.Saved?
      ensures doc == AfterSave(old(doc), Effective(old(doc))[key := value], save)
    {
      var config := Load();
      config := config[key := value];
      doc := AfterSave(doc, config, save);
      return save.Saved?;
    }

    /** `redefinir_para_padrao()`: save exactly the defaults. */
    method Reset(save: Save) returns (ok: bool)
      modifies this
      ensures ok == save.Saved?
      ensures doc == AfterSave(old(doc), DefaultMap(), save)
      ensures !save.OpenFails? ==> Effective(doc) == DefaultMap()
    {
      doc := AfterSave(doc, DefaultMap(), save);
      ResetRestoresDefaults();
      return save.Saved?;
    }
  }

  /** Once a key has been updated, the next load sees the new value and
      every other setting as it was in force before. */
  lemma UpdateIsSeen(doc: Document, key: string, value: Value)
    ensures Effective(Stored(Effective(doc)[key := value])) == Effective(doc)[key := value]
  {
    var e := Effective(doc)[key := value];
    assert Effective(Stored(e)).Keys == e.Keys;
  }

  /** An update whose dump fails after the truncation does not just miss its
      key: every stored setting is lost and the defaults are in force. */
  lemma DumpFailureResetsSettings(doc: Document, key: string, value: Value)
    ensures Effective(AfterSave(doc, Effective(doc)[key := value], DumpFails)) == DefaultMap()
    ensures key in DefaultMap() && DefaultMap()[key] != value ==>
              Effective(AfterSave(doc, Effective(doc)[key := value], DumpFails))[key] != value
  {
  }

  /** After a reset the settings in force are exactly the defaults. */
  lemma ResetRestoresDefaults()
    ensures Effective(Stored(DefaultMap())) == DefaultMap()
  {
  }
}
