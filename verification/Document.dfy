/** A configuration document as a tree of nodes, and what it says when read field by
    field. YAML text is left out: a node is what the YAML parser hands over. */
module Document {
  import opened Wrappers
  import opened ConfigTypes
  import Strings
  import Names

  /** The keys a document may carry, and any other. */
  datatype Field =
    | Hosts | PriceList | LoadBalancer
    | HostAddresses | Id | Description | Servers
    | Port | Api | Postfix | Scheme | AuthToken | MaxConcurrency
    | Currency | Models
    | Model | Aliases | Input | Output | CachedInput | ReasoningOutput
    | Routes | Alias | Cost
    | Other(name: string)

  /** A scalar decodes as a string always, as a number if it reads as one. */
  datatype Node =
    | Null
    | Scalar(text: string, whole: Option<int>, number: Option<real>)
    | List(items: seq<Node>)
    | Map(entries: seq<Entry>)

  datatype Entry = Entry(key: Field, value: Node)

  /** An empty file has no root node. */
  type Doc = Option<Node>

  // ----- decoding one node -------------------------------------------------------------

  function AsString(n: Node): Option<string> {
    match n
    case Null => Some("")
    case Scalar(text, _, _) => Some(text)
    case _ => None
  }

  function AsInt(n: Node): Option<int> {
    match n
    case Null => Some(0)
    case Scalar(_, whole, _) => whole
    case _ => None
  }

  function AsReal(n: Node): Option<real> {
    match n
    case Null => Some(0.0)
    case Scalar(_, _, number) => number
    case _ => None
  }

  function OrElse<T>(o: Option<T>, d: T): T {
    if o.Some? then o.value else d
  }

  // ----- fields of a mapping --------------------------------------------------------------

  /** The first entry with the key; a repeated key is an error reported elsewhere. */
  function Get(es: seq<Entry>, k: Field): (n: Option<Node>)
    ensures n.None? <==> forall i :: 0 <= i < |es| ==> es[i].key != k
  {
    if es == [] then None
    else if es[0].key == k then Some(es[0].value)
    else
      assert forall i :: 0 < i < |es| ==> es[i] == es[1..][i - 1];
      Get(es[1..], k)
  }

  /** At the top level a repeated key is not an error: the last one counts. */
  function GetLast(es: seq<Entry>, k: Field): (n: Option<Node>)
  {
    if es == [] then None
    else if es[|es| - 1].key == k then Some(es[|es| - 1].value)
    else GetLast(es[..|es| - 1], k)
  }

  ghost predicate KeysOk(es: seq<Entry>, allowed: set<Field>) {
    && (forall i :: 0 <= i < |es| ==> es[i].key in allowed)
    && (forall i, j :: 0 <= i < j < |es| ==> es[i].key != es[j].key)
  }

  lemma {:induction false} GetAt(es: seq<Entry>, i: nat)
    requires i < |es| && forall j :: 0 <= j < i ==> es[j].key != es[i].key
    ensures Get(es, es[i].key) == Some(es[i].value)
  {
    if i > 0 {
      assert es[1..][i - 1] == es[i];
      GetAt(es[1..], i - 1);
    }
  }

  function StringAt(es: seq<Entry>, k: Field): string {
    match Get(es, k)
    case Some(n) => OrElse(AsString(n), "")
    case None => ""
  }

  function IntAt(es: seq<Entry>, k: Field): int {
    match Get(es, k)
    case Some(n) => OrElse(AsInt(n), 0)
    case None => 0
  }

  function RealAt(es: seq<Entry>, k: Field): Option<real> {
    match Get(es, k)
    case Some(n) => AsReal(n)
    case None => None
  }

  function ItemsAt(es: seq<Entry>, k: Field): seq<Node> {
    match Get(es, k)
    case Some(List(items)) => items
    case _ => []
  }

  /** A field that is null says what one that is missing says, but for a real number, which
      a null gives as 0. */
  lemma NullField(es: seq<Entry>, k: Field)
    requires Get(es, k) == Some(Null)
    ensures StringAt(es, k) == StringAt([], k) == ""
    ensures IntAt(es, k) == IntAt([], k) == 0
    ensures RealAt(es, k) == Some(0.0) && RealAt([], k) == None
    ensures ItemsAt(es, k) == ItemsAt([], k) == []
  {
  }

  ghost predicate Absent(es: seq<Entry>, k: Field) {
    Get(es, k).None?
  }

  ghost predicate StringOk(es: seq<Entry>, k: Field) {
    Get(es, k).Some? ==> AsString(Get(es, k).value).Some?
  }

  ghost predicate IntOk(es: seq<Entry>, k: Field) {
    Get(es, k).Some? ==> AsInt(Get(es, k).value).Some?
  }

  ghost predicate RealOk(es: seq<Entry>, k: Field) {
    Get(es, k).Some? ==> AsReal(Get(es, k).value).Some?
  }

  ghost predicate ListOk(es: seq<Entry>, k: Field) {
    Get(es, k).Some? ==> Get(es, k).value.List?
  }

  // ----- what the document says ---------------------------------------------------------------

  function StringOf(n: Node): string {
    OrElse(AsString(n), "")
  }

  function Mapped<T, U>(f: T -> U, s: seq<T>): (r: seq<U>)
    ensures |r| == |s| && forall i :: 0 <= i < |s| ==> r[i] == f(s[i])
  {
    seq(|s|, i requires 0 <= i < |s| => f(s[i]))
  }

  const SERVER_FIELDS: set<Field> := {Port, Api, Id, Description, Postfix, Scheme, AuthToken, MaxConcurrency}
  const HOST_FIELDS: set<Field> := {HostAddresses, Id, Description, Servers}
  const PRICES_FIELDS: set<Field> := {Currency, Models}
  const PRICE_FIELDS: set<Field> := {Model, Aliases, Input, Output, CachedInput, ReasoningOutput}
  const LB_FIELDS: set<Field> := {Routes}
  const ROUTE_FIELDS: set<Field> := {Alias, Description, Models}
  const MEMBER_FIELDS: set<Field> := {Model, Cost}
  const TOP_FIELDS: set<Field> := {Hosts, PriceList, LoadBalancer}

  function Entries(n: Node): seq<Entry> {
    if n.Map? then n.entries else []
  }

  function ParseServer(n: Node): Server {
    var es := Entries(n);
    Server(IntAt(es, Port), StringAt(es, Api), StringAt(es, Id), StringAt(es, Description), StringAt(es, Scheme),
           StringAt(es, AuthToken), IntAt(es, MaxConcurrency))
  }

  function ParseHost(n: Node): Host {
    var es := Entries(n);
    Host(Mapped(StringOf, ItemsAt(es, HostAddresses)), StringAt(es, Id), StringAt(es, Description),
         Mapped(ParseServer, ItemsAt(es, Servers)))
  }

  function ParsePrice(n: Node): ModelPrice {
    var es := Entries(n);
    ModelPrice(StringAt(es, Model), Mapped(StringOf, ItemsAt(es, Aliases)), RealAt(es, Input), RealAt(es, Output),
               RealAt(es, CachedInput), RealAt(es, ReasoningOutput))
  }

  function ParsePrices(n: Node): Prices {
    var es := Entries(n);
    Prices(Strings.ToUpper(StringAt(es, Currency)), Mapped(ParsePrice, ItemsAt(es, Models)))
  }

  function ParseMember(n: Node): RouteMember {
    RouteMember(StringAt(Entries(n), Model), RealAt(Entries(n), Cost))
  }

  function ParseRoute(n: Node): Route {
    var es := Entries(n);
    Route(StringAt(es, Alias), StringAt(es, Description), Mapped(ParseMember, ItemsAt(es, Models)))
  }

  function ParseRoutes(n: Node): seq<Route> {
    Mapped(ParseRoute, ItemsAt(Entries(n), Routes))
  }

  /** A section that is null is a section that is absent. */
  function Section(es: seq<Entry>, k: Field): Option<Node> {
    match GetLast(es, k)
    case Some(n) => if n.Null? then None else Some(n)
    case None => None
  }

  function HostNodes(es: seq<Entry>): seq<Node> {
    match GetLast(es, Hosts)
    case Some(List(items)) => items
    case _ => []
  }

  function ParseTop(es: seq<Entry>): Config {
    Config(Mapped(ParseHost, HostNodes(es)),
           match Section(es, PriceList) { case Some(n) => Some(ParsePrices(n)) case None => None },
           match Section(es, LoadBalancer) { case Some(n) => Some(ParseRoutes(n)) case None => None })
  }

  function Parse(d: Doc): Config {
    if d.Some? then ParseTop(Entries(d.value)) else EMPTY
  }

  // ----- the shape a document must have --------------------------------------------------------

  ghost predicate ServerShape(n: Node) {
    && n.Map? && KeysOk(n.entries, SERVER_FIELDS) && Absent(n.entries, Postfix)
    && !Absent(n.entries, Id) && !Absent(n.entries, Port) && !Absent(n.entries, Api)
    && StringOk(n.entries, Id) && StringOk(n.entries, Api) && StringOk(n.entries, Description)
    && StringOk(n.entries, AuthToken) && IntOk(n.entries, Port) && IntOk(n.entries, MaxConcurrency)
    && StringOk(n.entries, Scheme) && (!Absent(n.entries, Scheme) ==> StringAt(n.entries, Scheme) != "")
  }

  ghost predicate HostShape(n: Node) {
    && n.Map? && KeysOk(n.entries, HOST_FIELDS)
    && !Absent(n.entries, Id) && StringOk(n.entries, Id) && StringOk(n.entries, Description)
    && !Absent(n.entries, HostAddresses) && ListOk(n.entries, HostAddresses)
    && (forall i :: 0 <= i < |ItemsAt(n.entries, HostAddresses)| ==> AsString(ItemsAt(n.entries, HostAddresses)[i]).Some?)
    && ListOk(n.entries, Servers)
    && (forall i :: 0 <= i < |ItemsAt(n.entries, Servers)| ==> ServerShape(ItemsAt(n.entries, Servers)[i]))
  }

  ghost predicate PriceShape(n: Node) {
    && n.Map? && KeysOk(n.entries, PRICE_FIELDS)
    && !Absent(n.entries, Model) && StringOk(n.entries, Model)
    && RealOk(n.entries, Input) && RealOk(n.entries, Output) && RealOk(n.entries, CachedInput) && RealOk(n.entries, ReasoningOutput)
    && ListOk(n.entries, Aliases)
    && (forall i :: 0 <= i < |ItemsAt(n.entries, Aliases)| ==> AsString(ItemsAt(n.entries, Aliases)[i]).Some?)
  }

  ghost predicate PricesShape(n: Node) {
    && n.Map? && KeysOk(n.entries, PRICES_FIELDS)
    && !Absent(n.entries, Currency) && StringOk(n.entries, Currency) && Names.IsIsoCurrency(StringAt(n.entries, Currency))
    && ListOk(n.entries, Models)
    && (forall i :: 0 <= i < |ItemsAt(n.entries, Models)| ==> PriceShape(ItemsAt(n.entries, Models)[i]))
  }

  ghost predicate MemberShape(n: Node) {
    && n.Map? && KeysOk(n.entries, MEMBER_FIELDS)
    && !Absent(n.entries, Model) && StringOk(n.entries, Model) && RealOk(n.entries, Cost)
  }

  ghost predicate RouteShape(n: Node) {
    && n.Map? && KeysOk(n.entries, ROUTE_FIELDS)
    && !Absent(n.entries, Alias) && StringOk(n.entries, Alias) && StringOk(n.entries, Description)
    && !Absent(n.entries, Models) && ListOk(n.entries, Models)
    && (forall i :: 0 <= i < |ItemsAt(n.entries, Models)| ==> MemberShape(ItemsAt(n.entries, Models)[i]))
  }

  ghost predicate RoutesShape(n: Node) {
    && n.Map? && KeysOk(n.entries, LB_FIELDS)
    && ListOk(n.entries, Routes)
    && (forall i :: 0 <= i < |ItemsAt(n.entries, Routes)| ==> RouteShape(ItemsAt(n.entries, Routes)[i]))
  }

  ghost predicate HostsShape(n: Node) {
    && n.List? && forall i :: 0 <= i < |n.items| ==> HostShape(n.items[i])
  }

  ghost predicate TopShape(n: Node) {
    && n.Map?
    && (forall i :: 0 <= i < |n.entries| ==> n.entries[i].key in TOP_FIELDS)
    && (GetLast(n.entries, Hosts).Some? ==> HostsShape(GetLast(n.entries, Hosts).value))
    && (Section(n.entries, PriceList).Some? ==> PricesShape(Section(n.entries, PriceList).value))
    && (Section(n.entries, LoadBalancer).Some? ==> RoutesShape(Section(n.entries, LoadBalancer).value))
  }

  ghost predicate Shape(d: Doc) {
    d.Some? ==> TopShape(d.value)
  }

  // ----- a section given twice ---------------------------------------------------------------------

  predicate HasKey(es: seq<Entry>, k: Field) {
    exists i :: 0 <= i < |es| && es[i].key == k
  }

  /** The entries without those that another entry with the same key follows. */
  function LastOnly(es: seq<Entry>): seq<Entry> {
    if es == [] then []
    else if HasKey(es[1..], es[0].key) then LastOnly(es[1..])
    else [es[0]] + LastOnly(es[1..])
  }

  lemma {:induction false} GetLastCons(e: Entry, es: seq<Entry>, k: Field)
    ensures GetLast([e] + es, k) == if GetLast(es, k).Some? then GetLast(es, k) else if e.key == k then Some(e.value) else None
  {
    var all := [e] + es;
    if es == [] {
      assert all[..0] == [];
    } else {
      assert all[..|all| - 1] == [e] + es[..|es| - 1];
      GetLastCons(e, es[..|es| - 1], k);
    }
  }

  lemma {:induction false} GetLastFound(es: seq<Entry>, k: Field)
    ensures GetLast(es, k).Some? <==> HasKey(es, k)
  {
    if es != [] {
      GetLastFound(es[..|es| - 1], k);
      if i :| 0 <= i < |es| && es[i].key == k {
        assert i < |es| - 1 ==> es[..|es| - 1][i].key == k;
      }
    }
  }

  lemma {:induction false} GetLastOfLastOnly(es: seq<Entry>, k: Field)
    ensures GetLast(LastOnly(es), k) == GetLast(es, k)
    ensures HasKey(LastOnly(es), k) <==> HasKey(es, k)
  {
    hide HasKey;
    if es != [] {
      GetLastOfLastOnly(es[1..], k);
      assert es == [es[0]] + es[1..];
      GetLastCons(es[0], es[1..], k);
      GetLastFound(es[1..], es[0].key);
      GetLastCons(es[0], LastOnly(es[1..]), k);
    }
    GetLastFound(es, k);
    GetLastFound(LastOnly(es), k);
  }

  lemma AllIn(es: seq<Entry>, fields: set<Field>)
    ensures (forall i :: 0 <= i < |es| ==> es[i].key in fields) <==> forall k :: HasKey(es, k) ==> k in fields
  {
    if forall k :: HasKey(es, k) ==> k in fields {
      forall i | 0 <= i < |es| ensures es[i].key in fields {
        assert HasKey(es, es[i].key);
      }
    }
  }

  /** Nothing is left twice. */
  lemma {:induction false} LastOnlyDistinct(es: seq<Entry>)
    ensures forall i, j :: 0 <= i < j < |LastOnly(es)| ==> LastOnly(es)[i].key != LastOnly(es)[j].key
  {
    if es != [] {
      LastOnlyDistinct(es[1..]);
      GetLastOfLastOnly(es[1..], es[0].key);
    }
  }

  /** A section given more than once is no error, and all but the last of it might as well
      not be there: whatever they hold, the document has the same shape and says the same as
      the one that gives each section once. */
  lemma EarlierSectionsIgnored(es: seq<Entry>)
    ensures forall i, j :: 0 <= i < j < |LastOnly(es)| ==> LastOnly(es)[i].key != LastOnly(es)[j].key
    ensures TopShape(Map(LastOnly(es))) <==> TopShape(Map(es))
    ensures ParseTop(LastOnly(es)) == ParseTop(es)
  {
    hide GetLast, HasKey, HostsShape, PricesShape, RoutesShape, LastOnly, ParseHost, ParsePrices, ParseRoutes;
    LastOnlyDistinct(es);
    forall k ensures GetLast(LastOnly(es), k) == GetLast(es, k) && (HasKey(LastOnly(es), k) <==> HasKey(es, k)) {
      GetLastOfLastOnly(es, k);
    }
    AllIn(es, TOP_FIELDS);
    AllIn(LastOnly(es), TOP_FIELDS);
  }
}
