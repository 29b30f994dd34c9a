/** The global settings: live values, the key/value table they are persisted in, and the
    bounds every write is checked against. */
module Settings {
  import opened Wrappers
  import opened Strings

  datatype Key =
    | HealthInterval | ProbeTimeout | ConnectTimeout | FirstByteTimeout | StreamIdleTimeout | TotalTimeout
    | MaxRequestSize | QueueTimeout | RetentionDays | DebugEnabled | DebugModel | DebugUntil
    | Unknown(name: string)

  const KEYS: seq<Key> := [HealthInterval, ProbeTimeout, ConnectTimeout, FirstByteTimeout, StreamIdleTimeout, TotalTimeout,
                           MaxRequestSize, QueueTimeout, RetentionDays, DebugEnabled, DebugModel, DebugUntil]

  /** Durations are in nanoseconds, sizes in bytes, the deadline in milliseconds. */
  datatype Settings = Settings(healthInterval: int, probeTimeout: int, connectTimeout: int, firstByteTimeout: int,
                               streamIdleTimeout: int, totalTimeout: int, maxRequestSize: int, queueTimeout: int,
                               retentionDays: int, debugEnabled: bool, debugModel: string, debugUntil: int)

  const SECOND := 1_000_000_000

  const DEFAULTS: Settings :=
    Settings(30 * SECOND, 5 * SECOND, 5 * SECOND, 60 * SECOND, 120 * SECOND, 0, 33_554_432, 60 * SECOND, 0, false, "", 0)

  datatype Value = Number(n: int) | Flag(b: bool) | Name(s: string)

  /** The library's readers of durations, sizes and whole numbers. */
  datatype Readers = Readers(duration: string -> Option<int>, size: string -> Option<int>, whole: string -> Option<int>)

  function Field(s: Settings, k: Key): Value {
    match k
    case HealthInterval => Number(s.healthInterval)
    case ProbeTimeout => Number(s.probeTimeout)
    case ConnectTimeout => Number(s.connectTimeout)
    case FirstByteTimeout => Number(s.firstByteTimeout)
    case StreamIdleTimeout => Number(s.streamIdleTimeout)
    case TotalTimeout => Number(s.totalTimeout)
    case MaxRequestSize => Number(s.maxRequestSize)
    case QueueTimeout => Number(s.queueTimeout)
    case RetentionDays => Number(s.retentionDays)
    case DebugEnabled => Flag(s.debugEnabled)
    case DebugModel => Name(s.debugModel)
    case DebugUntil => Number(s.debugUntil)
    case Unknown(_) => Flag(false)
  }

  /** The bounds table. */
  predicate Allowed(k: Key, v: Value) {
    match k
    case HealthInterval => v.Number? && 5 * SECOND <= v.n <= 3600 * SECOND
    case ProbeTimeout => v.Number? && SECOND <= v.n <= 300 * SECOND
    case ConnectTimeout => v.Number? && SECOND <= v.n <= 300 * SECOND
    case FirstByteTimeout => v.Number? && SECOND <= v.n <= 3600 * SECOND
    case StreamIdleTimeout => v.Number? && SECOND <= v.n <= 3600 * SECOND
    case TotalTimeout => v.Number? && (v.n == 0 || SECOND <= v.n <= 86400 * SECOND)
    case MaxRequestSize => v.Number? && 1024 <= v.n <= 1_073_741_824
    case QueueTimeout => v.Number? && SECOND <= v.n <= 3600 * SECOND
    case RetentionDays => v.Number? && 0 <= v.n
    case DebugEnabled => v.Flag?
    case DebugModel => v.Name?
    case DebugUntil => v.Number? && 0 <= v.n
    case Unknown(_) => false
  }

  ghost predicate InBounds(s: Settings) {
    forall k :: k in KEYS ==> Allowed(k, Field(s, k))
  }

  function InRange(v: Option<int>, low: int, high: int): Option<int> {
    if v.Some? && low <= v.value <= high then v else None
  }

  /** One field decoded and range-checked into the settings; None is a violation, and
      leaves them as they were. */
  function Applied(rd: Readers, s: Settings, k: Key, raw: string): Option<Settings> {
    var t := TrimSpace(raw);
    match k
    case HealthInterval =>
      var v := InRange(rd.duration(t), 5 * SECOND, 3600 * SECOND);
      if v.None? then None else Some(s.(healthInterval := v.value))
    case ProbeTimeout =>
      var v := InRange(rd.duration(t), SECOND, 300 * SECOND);
      if v.None? then None else Some(s.(probeTimeout := v.value))
    case ConnectTimeout =>
      var v := InRange(rd.duration(t), SECOND, 300 * SECOND);
      if v.None? then None else Some(s.(connectTimeout := v.value))
    case FirstByteTimeout =>
      var v := InRange(rd.duration(t), SECOND, 3600 * SECOND);
      if v.None? then None else Some(s.(firstByteTimeout := v.value))
    case StreamIdleTimeout =>
      var v := InRange(rd.duration(t), SECOND, 3600 * SECOND);
      if v.None? then None else Some(s.(streamIdleTimeout := v.value))
    case TotalTimeout =>
      if t == "0" || t == "off" || rd.duration(t) == Some(0) then Some(s.(totalTimeout := 0))
      else
        var v := InRange(rd.duration(t), SECOND, 86400 * SECOND);
        if v.None? then None else Some(s.(totalTimeout := v.value))
    case MaxRequestSize =>
      var v := InRange(rd.size(t), 1024, 1_073_741_824);
      if v.None? then None else Some(s.(maxRequestSize := v.value))
    case QueueTimeout =>
      var v := InRange(rd.duration(t), SECOND, 3600 * SECOND);
      if v.None? then None else Some(s.(queueTimeout := v.value))
    case RetentionDays =>
      if rd.whole(t).None? || rd.whole(t).value < 0 then None else Some(s.(retentionDays := rd.whole(t).value))
    case DebugEnabled =>
      var l := ToLower(t);
      if l in ["true", "on", "1", "yes"] then Some(s.(debugEnabled := true))
      else if l in ["false", "off", "0", "no"] then Some(s.(debugEnabled := false))
      else None
    case DebugModel => Some(s.(debugModel := t))
    case DebugUntil =>
      if rd.whole(t).None? || rd.whole(t).value < 0 then None else Some(s.(debugUntil := rd.whole(t).value))
    case Unknown(_) => None
  }

  /** What raw text for a key reads as, whatever the settings it is applied to. */
  function Reads(rd: Readers, k: Key, raw: string): Option<Value> {
    var r := Applied(rd, DEFAULTS, k, raw);
    if r.Some? then Some(Field(r.value, k)) else None
  }

  /** What raw text means for a key, bounds aside. */
  ghost function Meaning(rd: Readers, k: Key, raw: string): Option<Value> {
    var t := TrimSpace(raw);
    var word := ToLower(t);
    match k
    case MaxRequestSize => AsNumber(rd.size(t))
    case RetentionDays => AsNumber(rd.whole(t))
    case DebugUntil => AsNumber(rd.whole(t))
    case DebugEnabled =>
      if word in {"true", "on", "1", "yes"} then Some(Flag(true))
      else if word in {"false", "off", "0", "no"} then Some(Flag(false))
      else None
    case DebugModel => Some(Name(t))
    case TotalTimeout => if t == "0" || t == "off" then Some(Number(0)) else AsNumber(rd.duration(t))
    case Unknown(_) => None
    case _ => AsNumber(rd.duration(t))
  }

  function AsNumber(n: Option<int>): Option<Value> {
    if n.Some? then Some(Number(n.value)) else None
  }

  /** A field is accepted exactly when its text means something the bounds table allows,
      whatever the other fields hold; it takes that value, and no other field moves. */
  lemma AppliedAlone(rd: Readers, s: Settings, k: Key, raw: string)
    ensures Reads(rd, k, raw) ==
      if Meaning(rd, k, raw).Some? && Allowed(k, Meaning(rd, k, raw).value) then Meaning(rd, k, raw) else None
    ensures Applied(rd, s, k, raw).Some? <==> Reads(rd, k, raw).Some?
    ensures Reads(rd, k, raw).Some? ==>
      && k in KEYS && Allowed(k, Reads(rd, k, raw).value)
      && Field(Applied(rd, s, k, raw).value, k) == Reads(rd, k, raw).value
      && forall j :: j != k ==> Field(Applied(rd, s, k, raw).value, j) == Field(s, j)
  {
    hide Applied, Meaning, Allowed, Field, Reads;
    AppliedMeans(rd, k, raw);
    AppliedTakes(rd, s, k, raw);
    if Reads(rd, k, raw).Some? {
      forall j | j != k ensures Field(Applied(rd, s, k, raw).value, j) == Field(s, j) {
        AppliedSpares(rd, s, k, raw, j);
      }
    }
  }

  lemma AppliedMeans(rd: Readers, k: Key, raw: string)
    ensures Reads(rd, k, raw) ==
      if Meaning(rd, k, raw).Some? && Allowed(k, Meaning(rd, k, raw).value) then Meaning(rd, k, raw) else None
    ensures Reads(rd, k, raw).Some? ==> k in KEYS && Allowed(k, Reads(rd, k, raw).value)
  {
    hide TrimSpace, ToLower;
  }

  lemma AppliedTakes(rd: Readers, s: Settings, k: Key, raw: string)
    ensures Applied(rd, s, k, raw).Some? <==> Reads(rd, k, raw).Some?
    ensures Reads(rd, k, raw).Some? ==> Field(Applied(rd, s, k, raw).value, k) == Reads(rd, k, raw).value
  {
    hide TrimSpace, ToLower;
  }

  lemma AppliedSpares(rd: Readers, s: Settings, k: Key, raw: string, j: Key)
    requires j != k && Applied(rd, s, k, raw).Some?
    ensures Field(Applied(rd, s, k, raw).value, j) == Field(s, j)
  {
    hide TrimSpace, ToLower;
  }

  lemma SameFields(s: Settings, t: Settings)
    requires forall k :: k in KEYS ==> Field(s, k) == Field(t, k)
    ensures s == t
  {
    assert forall i :: 0 <= i < |KEYS| ==> KEYS[i] in KEYS;
    assert Field(s, KEYS[0]) == Field(t, KEYS[0]) && Field(s, KEYS[1]) == Field(t, KEYS[1]) && Field(s, KEYS[2]) == Field(t, KEYS[2]);
    assert Field(s, KEYS[3]) == Field(t, KEYS[3]) && Field(s, KEYS[4]) == Field(t, KEYS[4]) && Field(s, KEYS[5]) == Field(t, KEYS[5]);
    assert Field(s, KEYS[6]) == Field(t, KEYS[6]) && Field(s, KEYS[7]) == Field(t, KEYS[7]) && Field(s, KEYS[8]) == Field(t, KEYS[8]);
    assert Field(s, KEYS[9]) == Field(t, KEYS[9]) && Field(s, KEYS[10]) == Field(t, KEYS[10]) && Field(s, KEYS[11]) == Field(t, KEYS[11]);
  }

  /** The defaults as they are documented, as text. */
  ghost function DefaultText(k: Key): string {
    match k
    case HealthInterval => "30s"
    case ProbeTimeout => "5s"
    case ConnectTimeout => "5s"
    case FirstByteTimeout => "60s"
    case StreamIdleTimeout => "120s"
    case TotalTimeout => "off"
    case MaxRequestSize => "32MiB"
    case QueueTimeout => "60s"
    case RetentionDays => "0"
    case DebugEnabled => "false"
    case DebugModel => ""
    case DebugUntil => "0"
    case Unknown(_) => ""
  }

  /** Readers that read these texts as what they stand for. */
  ghost predicate Usual(rd: Readers) {
    && rd.duration("5s") == Some(5_000_000_000) && rd.duration("30s") == Some(30_000_000_000)
    && rd.duration("60s") == Some(60_000_000_000) && rd.duration("120s") == Some(120_000_000_000)
    && rd.size("32MiB") == Some(32 * 1024 * 1024) && rd.whole("0") == Some(0)
  }

  /** Writing the documented defaults to the table is writing nothing. */
  lemma DefaultsAreDocumented(rd: Readers, k: Key)
    requires Usual(rd) && k in KEYS
    ensures Reads(rd, k, DefaultText(k)) == Some(Field(DEFAULTS, k))
  {
    hide Applied, Meaning, Allowed, Field, DefaultText, Usual, Reads;
    DefaultsInBounds();
    AppliedMeans(rd, k, DefaultText(k));
    if k == DebugEnabled {
      FlagMeans(rd);
    } else {
      DefaultMeans(rd, k);
    }
  }

  lemma DefaultMeans(rd: Readers, k: Key)
    requires Usual(rd) && k in KEYS && k != DebugEnabled
    ensures Meaning(rd, k, DefaultText(k)) == Some(Field(DEFAULTS, k))
  {
    hide TrimSpace, ToLower, DefaultText;
    PlainDefault(k);
    PlainText(DefaultText(k));
    match k
    case HealthInterval => DurationDefault(rd, k);
    case ProbeTimeout => DurationDefault(rd, k);
    case ConnectTimeout => DurationDefault(rd, k);
    case FirstByteTimeout => DurationDefault(rd, k);
    case StreamIdleTimeout => DurationDefault(rd, k);
    case QueueTimeout => DurationDefault(rd, k);
    case _ => OtherDefault(rd, k);
  }

  lemma PlainDefault(k: Key)
    ensures forall i :: 0 <= i < |DefaultText(k)| ==> '0' <= DefaultText(k)[i] <= 'z'
  {
  }

  lemma DurationDefault(rd: Readers, k: Key)
    requires Usual(rd) && k in {HealthInterval, ProbeTimeout, ConnectTimeout, FirstByteTimeout, StreamIdleTimeout, QueueTimeout}
    ensures rd.duration(DefaultText(k)).Some? && Field(DEFAULTS, k) == Number(rd.duration(DefaultText(k)).value)
  {
  }

  lemma OtherDefault(rd: Readers, k: Key)
    requires Usual(rd)
    ensures k == TotalTimeout ==> DefaultText(k) == "off"
    ensures k == MaxRequestSize ==> rd.size(DefaultText(k)) == Some(DEFAULTS.maxRequestSize)
    ensures k in {RetentionDays, DebugUntil} ==> rd.whole(DefaultText(k)) == Some(0)
    ensures k == DebugModel ==> DefaultText(k) == ""
  {
  }

  lemma FlagMeans(rd: Readers)
    ensures Meaning(rd, DebugEnabled, DefaultText(DebugEnabled)) == Some(Field(DEFAULTS, DebugEnabled))
  {
    hide TrimSpace;
    PlainText("false");
    var word := ToLower("false");
    assert word == "false";
  }

  lemma PlainText(s: string)
    requires forall i :: 0 <= i < |s| ==> '0' <= s[i] <= 'z'
    ensures TrimSpace(s) == s
  {
    Trimmed("", s, "");
    assert "" + s + "" == s;
  }

  // ----- what is stored, what is live ------------------------------------------------------------

  type Rows = map<Key, string>

  /** What the table says of a key: what its text reads as, else the default. */
  function Stored(rd: Readers, rows: Rows, k: Key): Value {
    if k in rows && Reads(rd, k, rows[k]).Some? then Reads(rd, k, rows[k]).value else Field(DEFAULTS, k)
  }

  lemma StoredAt(rd: Readers, rows: Rows, k: Key)
    ensures Stored(rd, rows, k) ==
      if k in rows && Reads(rd, k, rows[k]).Some? then Reads(rd, k, rows[k]).value else Field(DEFAULTS, k)
  {
  }

  /** The settings are what the table says, every key of it. */
  ghost predicate Synced(rd: Readers, s: Settings, rows: Rows) {
    forall k :: k in KEYS ==> Field(s, k) == Stored(rd, rows, k)
  }

  /** So they are within bounds, and there is only one such. */
  lemma SyncedInBounds(rd: Readers, s: Settings, rows: Rows)
    requires Synced(rd, s, rows)
    ensures InBounds(s)
  {
    forall k | k in KEYS ensures Allowed(k, Field(s, k)) {
      if k in rows {
        AppliedAlone(rd, DEFAULTS, k, rows[k]);
      }
    }
  }

  predicate Blank(k: Key, raw: string) {
    !k.DebugModel? && TrimSpace(raw) == ""
  }

  /** A value of nothing but blanks leaves its key alone; only of the debug model it is a
      value, the empty one. */
  lemma BlankPatch(rd: Readers, s: Settings, patch: Rows, k: Key, t: Settings)
    requires k in KEYS && k in patch && Patched(rd, s, patch, t)
    ensures !AllBlank(patch[k]) ==> k in Written(patch)
    ensures AllBlank(patch[k]) && k != DebugModel ==> k !in Written(patch) && Field(t, k) == Field(s, k)
    ensures AllBlank(patch[k]) && k == DebugModel ==> k in Written(patch) && t.debugModel == ""
  {
    hide IsSpace;
    var raw := patch[k];
    assert Field(t, k) == if k in Written(patch) && Reads(rd, k, raw).Some? then Reads(rd, k, raw).value else Field(s, k);
    NothingLeft(raw);
  }

  /** The part of a patch that is to be written. */
  function Written(patch: Rows): Rows {
    map k | k in patch && k in KEYS && !Blank(k, patch[k]) :: patch[k]
  }

  /** Only known keys, and every one that is not blank reads as a value within bounds. */
  ghost predicate Acceptable(rd: Readers, patch: Rows) {
    forall k :: k in patch ==> k in KEYS && (Blank(k, patch[k]) || Reads(rd, k, patch[k]).Some?)
  }

  /** s with the written fields of the patch read in. */
  ghost predicate Patched(rd: Readers, s: Settings, patch: Rows, t: Settings) {
    forall k :: k in KEYS ==> (Field(t, k) ==
      if k in Written(patch) && Reads(rd, k, patch[k]).Some? then Reads(rd, k, patch[k]).value else Field(s, k))
  }

  lemma PatchedIsSynced(rd: Readers, s: Settings, rows: Rows, patch: Rows, t: Settings)
    requires Synced(rd, s, rows) && Acceptable(rd, patch) && Patched(rd, s, patch, t)
    ensures Synced(rd, t, rows + Written(patch))
  {
    hide Reads, Blank, Field;
  }

  // ----- one call ----------------------------------------------------------------------------------

  datatype Event = Reload(readable: bool) | Patch(patch: Rows, works: bool)

  datatype State = State(live: Settings, rows: Rows, gen: int)

  /** A load reads the table over the defaults, text that no longer validates passed over; a
      table that cannot be read leaves everything as it was. An accepted patch is persisted
      and live at once, blank values but an empty debug model passed over; refused, or not
      persisted, it changes nothing. */
  ghost predicate Calls(rd: Readers, s: State, e: Event, t: State) {
    match e
    case Reload(readable) =>
      if readable then t.rows == s.rows && Synced(rd, t.live, s.rows) && t.gen == s.gen + 1 else t == s
    case Patch(patch, works) =>
      if Acceptable(rd, patch) && works then
        && t.rows == s.rows + Written(patch) && Patched(rd, s.live, patch, t.live)
        && t.gen == s.gen + if t.live != s.live then 1 else 0
      else t == s
  }

  class Table {
    var rows: Rows

    constructor (rows: Rows)
      ensures this.rows == rows
    {
      this.rows := rows;
    }

    /** All of the pairs or none. */
    method SetSettings(kv: Rows, works: bool) returns (ok: bool)
      modifies this
      ensures ok == works && rows == if works then old(rows) + kv else old(rows)
    {
      if works {
        rows := rows + kv;
      }
      ok := works;
    }
  }

  class Manager {
    const rd: Readers
    const kv: Table
    var cur: Settings
    var gen: int

    constructor (rd: Readers, kv: Table)
      ensures this.rd == rd && this.kv == kv && cur == DEFAULTS && gen == 0 && kv.rows == old(kv.rows)
    {
      this.rd, this.kv, cur, gen := rd, kv, DEFAULTS, 0;
    }

    function View(): State
      reads this, kv
    {
      State(cur, kv.rows, gen)
    }

    method Load(readable: bool) returns (ok: bool)
      modifies this
      ensures ok == readable && Calls(rd, old(View()), Reload(readable), View())
    {
      hide Applied, Reads, Field, Stored;
      var s := DEFAULTS;
      var rows := kv.rows;
      if !readable {
        return false;
      }
      for i := 0 to |KEYS|
        invariant gen == old(gen) && kv.rows == rows
        invariant forall j :: 0 <= j < |KEYS| ==> Field(s, KEYS[j]) == if j < i then Stored(rd, rows, KEYS[j]) else Field(DEFAULTS, KEYS[j])
      {
        var k := KEYS[i];
        KeysApart(i);
        StoredAt(rd, rows, k);
        if k in rows {
          AppliedAlone(rd, s, k, rows[k]);
          var t := Applied(rd, s, k, rows[k]);
          if t.Some? {
            s := t.value;
          }
        }
      }
      assert forall k :: k in KEYS ==> exists j :: 0 <= j < |KEYS| && KEYS[j] == k;
      cur := s;
      gen := gen + 1;
      ok := true;
    }

    method Update(patch: Rows, works: bool) returns (ok: bool)
      modifies this, kv
      ensures ok <==> Acceptable(rd, patch) && works
      ensures Calls(rd, old(View()), Patch(patch, works), View())
    {
      var candidate, written, valid := Candidate(patch);
      var known := AllKnown(patch);
      AcceptedParts(rd, patch);
      if !valid || !known {
        return false;
      }
      var stored := kv.SetSettings(written, works);
      if !stored {
        return false;
      }
      var changed := candidate != cur;
      cur := candidate;
      if changed {
        gen := gen + 1;
      }
      ok := true;
    }

    method AllKnown(patch: Rows) returns (known: bool)
      ensures known <==> forall k :: k in patch ==> k in KEYS
    {
      known := true;
      var rest := patch.Keys;
      while rest != {}
        invariant rest <= patch.Keys
        invariant known <==> forall k :: k in patch.Keys - rest ==> k in KEYS
        decreases |rest|
      {
        var k :| k in rest;
        if k !in KEYS {
          known := false;
        }
        rest := rest - {k};
      }
    }

    method Candidate(patch: Rows) returns (candidate: Settings, written: Rows, valid: bool)
      ensures valid <==> ReadsAll(rd, patch, |KEYS|)
      ensures valid ==> written == Written(patch) && Patched(rd, cur, patch, candidate)
    {
      hide Applied, Reads, Field, Blank;
      candidate, written, valid := cur, map[], true;
      for i := 0 to |KEYS|
        invariant valid <==> ReadsAll(rd, patch, i)
        invariant valid ==> forall j :: 0 <= j < i ==> (KEYS[j] in written <==> KEYS[j] in patch && !Blank(KEYS[j], patch[KEYS[j]]))
        invariant forall k :: k in written ==> k in patch && written[k] == patch[k] && exists j :: 0 <= j < i && KEYS[j] == k
        invariant valid ==> forall j :: 0 <= j < i ==> (Field(candidate, KEYS[j]) ==
          if KEYS[j] in written then Reads(rd, KEYS[j], patch[KEYS[j]]).value else Field(cur, KEYS[j]))
        invariant valid ==> forall j :: i <= j < |KEYS| ==> Field(candidate, KEYS[j]) == Field(cur, KEYS[j])
      {
        var k := KEYS[i];
        KeysApart(i);
        if k !in patch {
          continue;
        }
        var raw := patch[k];
        if Blank(k, raw) {
          continue;
        }
        AppliedAlone(rd, candidate, k, raw);
        var t := Applied(rd, candidate, k, raw);
        if t.None? {
          valid := false;
          continue;
        }
        candidate := t.value;
        written := written[k := raw];
      }
      if valid {
        assert forall k :: k in KEYS ==> exists j :: 0 <= j < |KEYS| && KEYS[j] == k;
        assert written == Written(patch);
      }
    }
  }

  /** The first n keys of the patch that are not blank read as values within bounds. */
  ghost predicate ReadsAll(rd: Readers, patch: Rows, n: nat) {
    forall j :: 0 <= j < n && j < |KEYS| && KEYS[j] in patch ==> Blank(KEYS[j], patch[KEYS[j]]) || Reads(rd, KEYS[j], patch[KEYS[j]]).Some?
  }

  lemma AcceptedParts(rd: Readers, patch: Rows)
    ensures Acceptable(rd, patch) <==> ReadsAll(rd, patch, |KEYS|) && forall k :: k in patch ==> k in KEYS
  {
    hide Reads, Blank;
  }

  lemma KeysApart(i: nat)
    requires i < |KEYS|
    ensures forall j :: 0 <= j < |KEYS| && j != i ==> KEYS[j] != KEYS[i]
  {
  }

  // ----- runs --------------------------------------------------------------------------------------

  ghost predicate RunsTo(rd: Readers, trace: seq<State>, es: seq<Event>) {
    |trace| == |es| + 1 && forall i :: 0 <= i < |es| ==> Calls(rd, trace[i], es[i], trace[i + 1])
  }

  /** Whoever remembers the generation can tell whether the settings are another: while it
      is the same, so are they; and it never goes back. */
  lemma {:induction false} SameGeneration(rd: Readers, trace: seq<State>, es: seq<Event>, m: nat, n: nat)
    requires RunsTo(rd, trace, es) && m <= n <= |es|
    ensures trace[m].gen <= trace[n].gen
    ensures trace[m].gen == trace[n].gen ==> trace[m].live == trace[n].live
    decreases n
  {
    hide Synced, Patched, Acceptable, Written;
    if m < n {
      SameGeneration(rd, trace, es, m, n - 1);
      assert Calls(rd, trace[n - 1], es[n - 1], trace[n]);
    }
  }

  /** In every sequential run that starts with a load that reads the table, whatever later
      loads fail, the live settings are at every moment within bounds and equal to what a
      fresh load of the table would give. */
  lemma {:induction false} LiveIsStored(rd: Readers, trace: seq<State>, es: seq<Event>, reloaded: Settings)
    requires RunsTo(rd, trace, [Reload(true)] + es)
    requires Synced(rd, reloaded, trace[|es| + 1].rows)
    ensures InBounds(trace[|es| + 1].live) && trace[|es| + 1].live == reloaded
  {
    hide Synced, Field, InBounds;
    StaysSynced(rd, trace, [Reload(true)] + es, |es| + 1);
    SyncedInBounds(rd, trace[|es| + 1].live, trace[|es| + 1].rows);
    SyncedIsOne(rd, trace[|es| + 1].live, reloaded, trace[|es| + 1].rows);
  }

  lemma SyncedIsOne(rd: Readers, s: Settings, t: Settings, rows: Rows)
    requires Synced(rd, s, rows) && Synced(rd, t, rows)
    ensures s == t
  {
    hide Field, Stored;
    SameFields(s, t);
  }

  lemma {:induction false} StaysSynced(rd: Readers, trace: seq<State>, es: seq<Event>, n: nat)
    requires RunsTo(rd, trace, es) && 1 <= n <= |es| && es[0] == Reload(true)
    ensures Synced(rd, trace[n].live, trace[n].rows)
  {
    hide Synced, Patched, Acceptable;
    assert Calls(rd, trace[n - 1], es[n - 1], trace[n]);
    if n > 1 {
      StaysSynced(rd, trace, es, n - 1);
      var e := es[n - 1];
      if e.Patch? && Acceptable(rd, e.patch) && e.works {
        PatchedIsSynced(rd, trace[n - 1].live, trace[n - 1].rows, e.patch, trace[n].live);
      }
    }
  }

  /** Even in runs that never manage to read the table, from the defaults on, the live
      settings are at every moment within bounds. */
  lemma {:induction false} AlwaysInBounds(rd: Readers, trace: seq<State>, es: seq<Event>, n: nat)
    requires RunsTo(rd, trace, es) && n <= |es| && trace[0].live == DEFAULTS
    ensures InBounds(trace[n].live)
  {
    if n == 0 {
      DefaultsInBounds();
    } else {
      hide InBounds, Synced, Patched, Acceptable;
      AlwaysInBounds(rd, trace, es, n - 1);
      assert Calls(rd, trace[n - 1], es[n - 1], trace[n]);
      var e := es[n - 1];
      if e.Reload? && e.readable {
        SyncedInBounds(rd, trace[n].live, trace[n].rows);
      } else if e.Patch? && Acceptable(rd, e.patch) && e.works {
        PatchedInBounds(rd, trace[n - 1].live, e.patch, trace[n].live);
      }
    }
  }

  lemma DefaultsInBounds()
    ensures InBounds(DEFAULTS)
  {
  }

  lemma PatchedInBounds(rd: Readers, s: Settings, patch: Rows, t: Settings)
    requires InBounds(s) && Patched(rd, s, patch, t)
    ensures InBounds(t)
  {
    hide Applied, Reads, Field, Allowed;
    forall k | k in KEYS ensures Allowed(k, Field(t, k)) {
      if k in patch {
        AppliedAlone(rd, DEFAULTS, k, patch[k]);
      }
    }
  }
}
