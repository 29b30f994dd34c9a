/** The store as it is run: a live snapshot, the digest last observed, the digest whose
    load failed, and the file on disk that others may edit. */
module Store {
  import opened Wrappers
  import opened ConfigTypes
  import opened Document
  import opened Rules
  import opened Canonical
  import opened CanonicalForm
  import opened Validation
  import opened Printer
  import opened StoreModel

  class Disk {
    var file: File

    constructor (file: File)
      ensures this.file == file
    {
      this.file := file;
    }
  }

  datatype Snapshot = Snapshot(config: Config, fileHash: File)

  class ConfigStore {
    const k: Codec
    const disk: Disk
    var cur: Snapshot
    var fileHash: File
    var attempted: File

    ghost function View(): State
      reads this, disk
    {
      State(disk.file, cur.config, cur.fileHash, fileHash, attempted)
    }

    constructor (k: Codec, disk: Disk)
      ensures this.k == k && this.disk == disk && disk.file == old(disk.file)
      ensures cur == Snapshot(EMPTY, None) && fileHash == None && attempted == None
    {
      this.k, this.disk := k, disk;
      cur, fileHash, attempted := Snapshot(EMPTY, None), None, None;
    }

    method Check(bytes: string) returns (cfg: Option<Config>)
      ensures cfg == if Valid(k, bytes) then Some(Said(k, bytes)) else None
    {
      hide Shape, Proper, Parse;
      var d := k.read(bytes);
      if d.None? {
        return None;
      }
      var v;
      cfg, v := ParseAndValidate(d.value);
    }

    method Normalize(cfg: Config) returns (r: Config)
      ensures r == Normalized(cfg)
    {
      var draft := new Draft(cfg);
      draft.Normalize();
      r := draft.View();
    }

    /** At startup. An invalid file starts with an empty configuration; a file that
        cannot be read is an error, and nothing is known. */
    method Load(readable: bool) returns (ok: bool)
      requires attempted == None
      modifies this
      ensures ok == readable
      ensures View() == if readable then LoadStep(k, disk.file) else old(View())
    {
      hide Valid, Normalized, Said;
      if !readable {
        return false;
      }
      ok := true;
      if disk.file.None? {
        fileHash := None;
        cur := Snapshot(EMPTY, None);
        return;
      }
      var cfg := Check(disk.file.value);
      fileHash := disk.file;
      if cfg.None? {
        cur := Snapshot(EMPTY, disk.file);
      } else {
        var c := Normalize(cfg.value);
        cur := Snapshot(c, disk.file);
      }
    }

    method SwapHash(h: File)
      modifies this`cur
      ensures cur == Snapshot(old(cur).config, h)
    {
      cur := Snapshot(cur.config, h);
    }

    method Poll(readable: bool)
      modifies this
      ensures View() == if readable then PollStep(k, old(View())) else old(View())
    {
      hide Valid, Normalized, Said;
      if !readable {
        return;
      }
      var h := disk.file;
      if h == fileHash {
        attempted := None;
        return;
      }
      fileHash := h;
      if h == attempted {
        SwapHash(h);
        return;
      }
      var cfg := Some(EMPTY);
      if h.Some? {
        cfg := Check(h.value);
      }
      if cfg.None? {
        attempted := h;
        SwapHash(h);
        return;
      }
      if h.None? {
        EmptyIsInOrder();
      }
      var c := Normalize(cfg.value);
      cur := Snapshot(c, h);
    }

    /** The draft is put in order even if the save is refused later on. */
    method Save(draft: Draft, expected: File, writable: bool) returns (saved: bool)
      modifies this, disk, draft
      ensures draft.View() == old(draft.View()) || draft.View() == Normalized(old(draft.View()))
      ensures saved <==> Accepts(k, old(View()), StoreModel.Save(old(draft.View()), expected, writable))
      ensures View() == if saved then SaveStep(k, old(View()), old(draft.View())) else old(View())
      ensures saved ==> draft.View() == cur.config
    {
      hide Valid, Normalized, Printed;
      if expected != fileHash {
        return false;
      }
      var tree := draft.Canonical();
      var canonical := k.write(tree);
      var cfg := Check(canonical);
      if cfg.None? {
        return false;
      }
      if !writable {
        return false;
      }
      var h := Some(canonical);
      disk.file := h;
      cur := Snapshot(draft.View(), h);
      fileHash := h;
      attempted := None;
      saved := true;
    }
  }

  lemma EmptyIsInOrder()
    ensures Normalized(EMPTY) == EMPTY
  {
  }
}
