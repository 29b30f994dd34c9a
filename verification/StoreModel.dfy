/** The configuration store as a state machine on values: one file on disk, edited by
    hand behind the store's back, polled, and saved to. A digest stands for exactly one
    contents, so it is the contents here; no file has the empty digest. */
module StoreModel {
  import opened Wrappers
  import opened ConfigTypes
  import opened Strings
  import opened Names
  import opened Document
  import opened Rules
  import opened Canonical
  import opened CanonicalForm

  /** What the YAML library does: read bytes as a document, unless they are malformed,
      and print a tree. */
  datatype Codec = Codec(read: string -> Option<Doc>, write: Node -> string)

  /** The file as written of a configuration. */
  function Written(k: Codec, cfg: Config): string {
    k.write(Printed(cfg))
  }

  /** What is written of a configuration reads back as a document that says the same,
      though perhaps not as the very tree that was printed. */
  ghost predicate ReadsBack(k: Codec, cfg: Config) {
    var d := k.read(Written(k, cfg));
    d.Some? && Parse(d.value) == Parse(Some(Printed(cfg)))
  }

  /** And has the right shape if that tree has. */
  ghost predicate KeepsShape(k: Codec, cfg: Config) {
    var d := k.read(Written(k, cfg));
    d.Some? ==> (Shape(d.value) <==> Shape(Some(Printed(cfg))))
  }

  /** Whatever can be saved in the run reads back. */
  ghost predicate SavesReadBack(k: Codec, es: seq<Event>) {
    forall i :: 0 <= i < |es| && es[i].Save? && Savable(k, es[i].cfg) ==> ReadsBack(k, es[i].cfg)
  }

  type File = Option<string>

  datatype State = State(disk: File, cfg: Config, snapHash: File, fileHash: File, attempted: File)

  datatype Event =
    | Edit(file: File)
    | Poll(readable: bool)
    | Save(cfg: Config, expected: File, writable: bool)

  ghost predicate Valid(k: Codec, bytes: string) {
    k.read(bytes).Some? && Shape(k.read(bytes).value) && Proper(Parse(k.read(bytes).value))
  }

  /** What the bytes of a valid file say. */
  function Said(k: Codec, bytes: string): Config {
    if k.read(bytes).Some? then Parse(k.read(bytes).value) else EMPTY
  }

  ghost function LoadStep(k: Codec, disk: File): State {
    State(disk, if disk.Some? && Valid(k, disk.value) then Normalized(Said(k, disk.value)) else EMPTY, disk, disk, None)
  }

  ghost function PollStep(k: Codec, s: State): State {
    var h := s.disk;
    if h == s.fileHash then s.(attempted := None)
    else if h == s.attempted then s.(fileHash := h, snapHash := h)
    else if h.None? then s.(cfg := EMPTY, fileHash := h, snapHash := h)
    else if Valid(k, h.value) then s.(cfg := Normalized(Said(k, h.value)), fileHash := h, snapHash := h)
    else s.(attempted := h, fileHash := h, snapHash := h)
  }

  /** The file that would be written of the configuration validates. */
  ghost predicate Savable(k: Codec, cfg: Config) {
    Valid(k, Written(k, cfg))
  }

  ghost predicate Accepts(k: Codec, s: State, e: Event) {
    e.Save? && e.expected == s.fileHash && Savable(k, e.cfg) && e.writable
  }

  ghost function SaveStep(k: Codec, s: State, cfg: Config): State {
    var h := Some(Written(k, cfg));
    State(h, Normalized(cfg), h, h, None)
  }

  ghost function Step(k: Codec, s: State, e: Event): State {
    match e
    case Edit(file) => s.(disk := file)
    case Poll(readable) => if readable then PollStep(k, s) else s
    case Save(cfg, _, _) => if Accepts(k, s, e) then SaveStep(k, s, cfg) else s
  }

  ghost function Run(k: Codec, s: State, es: seq<Event>): State
    decreases |es|
  {
    if es == [] then s else Run(k, Step(k, s, es[0]), es[1..])
  }

  // ----- what every run keeps --------------------------------------------------------------------

  /** The currency is printed the way it would be read back. */
  ghost predicate UpperCurrency(c: Config) {
    c.prices.Some? && c.prices.value.models != [] ==> ToUpper(c.prices.value.currency) == c.prices.value.currency
  }

  /** The configuration says what the bytes say. */
  ghost predicate Agrees(k: Codec, c: Config, bytes: string) {
    Printed(c) == Printed(Said(k, bytes))
  }

  /** The printed form of the configuration validates. */
  ghost predicate Printable(cfg: Config) {
    Shape(Some(Printed(cfg))) && Proper(Parse(Some(Printed(cfg))))
  }

  ghost predicate Inv(k: Codec, s: State) {
    && s.snapHash == s.fileHash
    && Normal(s.cfg) && (Printable(s.cfg) <==> CurrencyFits(s.cfg))
    && (s.attempted.Some? ==> !Valid(k, s.attempted.value))
    && (s.fileHash.Some? && Valid(k, s.fileHash.value) ==> (Agrees(k, s.cfg, s.fileHash.value) <==> UpperCurrency(s.cfg)))
  }

  lemma EmptyIsPrintable()
    ensures Normal(EMPTY) && Printable(EMPTY) && CurrencyFits(EMPTY) && UpperCurrency(EMPTY)
  {
    EmptyIsProper();
    CanonicalIsStable(None);
  }

  lemma EmptyIsProper()
    ensures Proper(EMPTY)
  {
  }

  lemma LoadedIsPrintable(k: Codec, bytes: string)
    requires Valid(k, bytes)
    ensures var c := Normalized(Said(k, bytes));
      Normal(c) && (Printable(c) <==> CurrencyFits(c)) && Agrees(k, c, bytes) && UpperCurrency(c)
  {
    hide Shape, HostsProper, RoutesProper, Emit, Normal, CurrencyFits;
    var c := Said(k, bytes);
    NormalizedIsNormal(c);
    NormalizeTwice(c);
    CanonicalIsStable(k.read(bytes).value);
    OrderedPrintsSame(c);
    CanonicalForm.SameCurrency(c);
  }

  lemma OrderedPrintsSame(c: Config)
    ensures Printed(Normalized(c)) == Printed(c)
  {
    NormalizeTwice(c);
  }

  /** A saved configuration reads back as itself, except that a currency given in lower
      case comes back in upper case. */
  lemma SavedReadsBack(k: Codec, c: Config)
    requires ReadsBack(k, c)
    ensures Agrees(k, Normalized(c), Written(k, c)) <==> UpperCurrency(c)
  {
    hide Settle, Emit, Normalized, Shape, Parse;
    var n := Normalized(c);
    NormalizeTwice(c);
    assert Said(k, Written(k, c)) == Parse(Some(Emit(n)));
    EmitThenParse(n);
    NormalizedIsNormal(c);
    SettleKeepsNormal(n);
    NormalIsFixed(Settle(n));
    SameUpperCurrency(c);
    EmitAgain(n);
  }

  lemma SameUpperCurrency(c: Config)
    ensures UpperCurrency(Normalized(c)) <==> UpperCurrency(c)
  {
    if c.prices.Some? {
      Sorting.SortBySorted(PriceModel, c.prices.value.models);
    }
  }

  lemma EmitAgain(c: Config)
    ensures Emit(Settle(c)) == Emit(c) <==> UpperCurrency(c)
  {
    hide EmitHost, EmitRoute, EmitPrice, SettleHost, SettleRoute, SettlePrice, ToUpper;
    if UpperCurrency(c) {
      if c.prices.Some? && c.prices.value.models == [] {
        var d := c.(prices := None);
        EmitSettled(d);
        assert Settle(d) == Settle(c) && Emit(d) == Emit(c);
      } else {
        EmitSettled(c);
      }
    } else {
      TopBack(c);
      TopBack(Settle(c));
      var p := c.prices.value;
      assert EmitPrices(c.prices)[0].value.entries[0].value == Text(p.currency);
      assert EmitPrices(Settle(c).prices)[0].value.entries[0].value == Text(ToUpper(p.currency));
    }
  }

  /** For every run there is such a codec: one that numbers the configurations saved. */
  lemma SomeCodecReadsBack(es: seq<Event>) returns (k: Codec)
    ensures SavesReadBack(k, es)
    ensures forall i :: 0 <= i < |es| && es[i].Save? ==> KeepsShape(k, es[i].cfg) && (Savable(k, es[i].cfg) <==> Printable(es[i].cfg))
  {
    hide Printed, Shape, Parse, Proper;
    k := Codec(b => if |b| < |es| && es[|b|].Save? then Some(Some(Printed(es[|b|].cfg))) else None,
               n => seq(IndexOf(es, n), _ => 'x'));
    forall i | 0 <= i < |es| && es[i].Save?
      ensures ReadsBack(k, es[i].cfg) && KeepsShape(k, es[i].cfg) && (Savable(k, es[i].cfg) <==> Printable(es[i].cfg)) {
      IndexFound(es, i);
      var at := IndexOf(es, Printed(es[i].cfg));
      assert k.read(Written(k, es[i].cfg)) == Some(Some(Printed(es[at].cfg)));
    }
  }

  function IndexOf(es: seq<Event>, n: Node): nat {
    if es == [] || (es[0].Save? && Printed(es[0].cfg) == n) then 0 else 1 + IndexOf(es[1..], n)
  }

  lemma {:induction false} IndexFound(es: seq<Event>, i: nat)
    requires i < |es| && es[i].Save?
    ensures var at := IndexOf(es, Printed(es[i].cfg));
      at <= i && es[at].Save? && Printed(es[at].cfg) == Printed(es[i].cfg)
  {
    hide Printed;
    if !(es[0].Save? && Printed(es[0].cfg) == Printed(es[i].cfg)) {
      IndexFound(es[1..], i - 1);
    }
  }

  lemma LoadKeeps(k: Codec, disk: File)
    ensures Inv(k, LoadStep(k, disk))
  {
    hide Valid, Normal, Printable, CurrencyFits, Normalized, Agrees, Said, UpperCurrency;
    EmptyIsPrintable();
    if disk.Some? && Valid(k, disk.value) {
      LoadedIsPrintable(k, disk.value);
    }
  }

  lemma PollKeeps(k: Codec, s: State)
    requires Inv(k, s)
    ensures Inv(k, PollStep(k, s))
  {
    hide Valid, Normal, Printable, CurrencyFits, Normalized, Agrees, Said, UpperCurrency;
    EmptyIsPrintable();
    if s.disk.Some? && Valid(k, s.disk.value) {
      LoadedIsPrintable(k, s.disk.value);
    }
  }

  /** Whatever is saved was fit to be read, so its currency is all letters, and fits or is
      refused by its length alone. */
  lemma SavablePrints(k: Codec, cfg: Config)
    requires ReadsBack(k, cfg) && Savable(k, cfg)
    ensures Printable(cfg) <==> CurrencyFits(cfg)
  {
    hide Shape, Proper, Emit, Settle, Normalized, Parse, CurrencyFits, PrintsCurrency;
    EmitThenParse(Normalized(cfg));
    CanonicalForm.SameCurrency(cfg);
    CurrencyIsLetters(k, cfg);
  }

  lemma CurrencyIsLetters(k: Codec, cfg: Config)
    requires ReadsBack(k, cfg) && Savable(k, cfg)
    ensures PrintsCurrency(cfg) <==> CurrencyFits(cfg)
  {
    hide Shape, Proper, Emit, Parse, AllLetters, TrimSpace, Bytes, ToUpper, SettleHost, SettleRoute;
    var n := Normalized(cfg);
    EmitThenParse(n);
    CanonicalForm.SameCurrency(cfg);
    PrintsIfFits(k.read(Written(k, cfg)).value);
    if n.prices.Some? {
      LettersUpper(n.prices.value.currency);
    }
  }

  lemma SaveKeeps(k: Codec, s: State, cfg: Config)
    requires ReadsBack(k, cfg) && Savable(k, cfg)
    ensures Inv(k, SaveStep(k, s, cfg))
  {
    hide Valid, Normal, Normalized, Agrees, Said, UpperCurrency, Printed, Shape, Proper, CurrencyFits, ReadsBack, Written, Parse;
    NormalizedIsNormal(cfg);
    OrderedPrintsSame(cfg);
    SavedReadsBack(k, cfg);
    SameUpperCurrency(cfg);
    SavablePrints(k, cfg);
    CanonicalForm.SameCurrency(cfg);
  }

  lemma StepKeeps(k: Codec, s: State, e: Event)
    requires SavesReadBack(k, [e]) && Inv(k, s)
    ensures Inv(k, Step(k, s, e))
  {
    assert [e][0] == e;
    hide Valid, Normal, Savable, CurrencyFits, ReadsBack, Agrees, UpperCurrency, PollStep, SaveStep;
    match e
    case Edit(_) =>
    case Poll(_) => PollKeeps(k, s);
    case Save(cfg, _, _) =>
      if Accepts(k, s, e) {
        SaveKeeps(k, s, cfg);
      }
  }

  lemma {:induction false} RunKeeps(k: Codec, s: State, es: seq<Event>)
    requires SavesReadBack(k, es) && Inv(k, s)
    ensures Inv(k, Run(k, s, es))
    decreases |es|
  {
    hide Inv, Step, Savable, ReadsBack;
    if es != [] {
      StepKeeps(k, s, es[0]);
      RunKeeps(k, Step(k, s, es[0]), es[1..]);
    }
  }

  /** Over every run of hand edits, polls and saves from a start-up load: the live
      snapshot carries the digest of the file as last observed, and the live configuration
      is in order. It prints to a form that validates exactly when its currency, if it is
      printed, has three bytes, and then the file written of it does, if it reads back with
      its shape; and it says what the file observed says, if that is valid, exactly when its
      currency is in upper case. */
  lemma StoreAgreement(k: Codec, disk: File, es: seq<Event>)
    requires SavesReadBack(k, es)
    ensures var s := Run(k, LoadStep(k, disk), es);
      && s.snapHash == s.fileHash
      && Normalized(s.cfg) == s.cfg && (Printable(s.cfg) <==> CurrencyFits(s.cfg))
      && (ReadsBack(k, s.cfg) && KeepsShape(k, s.cfg) ==> (Savable(k, s.cfg) <==> CurrencyFits(s.cfg)))
      && (s.fileHash.Some? && Valid(k, s.fileHash.value) ==> (Agrees(k, s.cfg, s.fileHash.value) <==> UpperCurrency(s.cfg)))
  {
    hide Valid, Normal, Savable, Printable, Agrees, UpperCurrency, Step, Normalized, CurrencyFits, SavesReadBack, ReadsBack, KeepsShape;
    LoadKeeps(k, disk);
    RunKeeps(k, LoadStep(k, disk), es);
    var s := Run(k, LoadStep(k, disk), es);
    NormalIsFixed(s.cfg);
    if ReadsBack(k, s.cfg) && KeepsShape(k, s.cfg) {
      SavableIffPrintable(k, s.cfg);
    }
  }

  lemma SavableIffPrintable(k: Codec, cfg: Config)
    requires ReadsBack(k, cfg) && KeepsShape(k, cfg)
    ensures Savable(k, cfg) <==> Printable(cfg)
  {
    hide Shape, Proper, Parse, Printed;
  }

  /** What a poll of an existing file does: a valid one that has changed is what the live
      configuration says from then on, an invalid one changes nothing but the digests,
      and the file is never touched. */
  lemma PollOutcome(k: Codec, s: State)
    requires Inv(k, s) && s.disk.Some?
    ensures var r := PollStep(k, s);
      && r.disk == s.disk && r.fileHash == s.disk && r.snapHash == s.disk
      && (Valid(k, s.disk.value) && s.disk != s.fileHash ==>
            r.cfg == Normalized(Said(k, s.disk.value)) && Agrees(k, r.cfg, s.disk.value))
      && (!Valid(k, s.disk.value) || s.disk == s.fileHash ==> r.cfg == s.cfg)
  {
    hide Normal, Printable, UpperCurrency, Normalized;
    if Valid(k, s.disk.value) {
      LoadedIsPrintable(k, s.disk.value);
    }
  }

  /** A file that has gone: the live configuration is emptied exactly when the last failed
      edit is still remembered. With no failed edit behind it, the deletion is taken for
      "still broken in the same way" and the old configuration stays live, although a
      restart at that moment would come up empty. */
  lemma DeletionOutcome(k: Codec, s: State)
    requires s.disk.None? && s.fileHash.Some?
    ensures PollStep(k, s).cfg == if s.attempted.Some? then EMPTY else s.cfg
    ensures PollStep(k, s).cfg == LoadStep(k, s.disk).cfg <==> s.attempted.Some? || s.cfg == EMPTY
    ensures PollStep(k, s).fileHash == None
  {
  }

  /** The same from the start: load a valid file, delete it, poll for ever. */
  lemma {:induction false} DeletionIgnored(k: Codec, bytes: string, n: nat)
    requires Valid(k, bytes)
    ensures Run(k, LoadStep(k, Some(bytes)), [Edit(None)] + seq(n, _ => Poll(true))).cfg == Normalized(Said(k, bytes))
  {
    hide Valid, Normalized, Said;
    var s := Step(k, LoadStep(k, Some(bytes)), Edit(None));
    var polls := seq(n, _ => Poll(true));
    assert ([Edit(None)] + polls)[1..] == polls;
    PollsIgnoreDeletion(k, s, polls);
  }

  lemma {:induction false} PollsIgnoreDeletion(k: Codec, s: State, polls: seq<Event>)
    requires s.disk.None? && s.attempted.None? && forall i :: 0 <= i < |polls| ==> polls[i] == Poll(true)
    ensures Run(k, s, polls).cfg == s.cfg
    decreases |polls|
  {
    if polls != [] {
      PollsIgnoreDeletion(k, PollStep(k, s), polls[1..]);
    }
  }

  /** A save goes through only against the contents last observed, which is what the live
      snapshot carries, and only if the file about to be written would itself be taken;
      refused, it changes nothing. */
  lemma SaveGuard(k: Codec, s: State, cfg: Config, expected: File, writable: bool)
    requires Inv(k, s)
    ensures var e := Save(cfg, expected, writable);
      if expected == s.snapHash && Valid(k, Written(k, cfg)) && writable then
        && Step(k, s, e).cfg == Normalized(cfg)
        && Step(k, s, e).disk == Some(Written(k, cfg)) == Step(k, s, e).fileHash
      else Step(k, s, e) == s
  {
    hide Printable, Normal, Valid, Printed, Normalized;
  }

  /** The guard compares with what was observed, not with the disk. A hand edit that has
      not been polled is wiped out as though it had never been; polled first, it makes
      the same save stale, unless it changed nothing. */
  lemma SaveMayLoseEdit(k: Codec, s: State, cfg: Config, edit: File)
    requires Savable(k, cfg)
    ensures var save := Save(cfg, s.fileHash, true);
      && Accepts(k, Step(k, s, Edit(edit)), save)
      && Run(k, s, [Edit(edit), save]) == Run(k, s, [save])
      && (Accepts(k, Run(k, s, [Edit(edit), Poll(true)]), save) <==> edit == s.fileHash)
  {
    hide Savable, Printed, Normalized, Valid, Said;
    var save := Save(cfg, s.fileHash, true);
    RunTwo(k, s, Edit(edit), save);
    RunTwo(k, s, Edit(edit), Poll(true));
    assert [save][1..] == [];
    assert Run(k, s, [save]) == Step(k, s, save);
  }

  lemma RunTwo(k: Codec, s: State, a: Event, b: Event)
    ensures Run(k, s, [a, b]) == Step(k, Step(k, s, a), b)
  {
    hide Step;
    assert [a, b][1..] == [b] && [b][1..] == [];
    assert Run(k, Step(k, s, a), [b]) == Run(k, Step(k, Step(k, s, a), b), []);
  }

  /** The store's own save is never taken for a hand edit, and a restart after it comes up
      with the configuration that was saved, if its currency is in upper case. */
  lemma SaveIsSettled(k: Codec, s: State, cfg: Config)
    requires ReadsBack(k, cfg) && Savable(k, cfg)
    ensures PollStep(k, SaveStep(k, s, cfg)) == SaveStep(k, s, cfg)
    ensures var again := LoadStep(k, SaveStep(k, s, cfg).disk).cfg;
      Printed(again) == Printed(cfg) <==> UpperCurrency(cfg)
  {
    hide Normalized, Emit, Settle, Shape, Proper, UpperCurrency;
    SavedReadsBack(k, cfg);
    OrderedPrintsSame(cfg);
    OrderedPrintsSame(Said(k, Written(k, cfg)));
  }
}
