/**
 * Loading users' routing and billing detail from the shared tables: in bulk at
 * startup, row by row over interleaved tables, and for one user on REGISTER.
 * Users are objects that the lookup map reaches under several keys, so a key
 * leads to an object number and the details are kept per object.
 */
module Hydration {
  import opened Common

  datatype Detail = Detail(
    blocked: seq<string>,
    onBusy: Option<string>,
    onNoAnswer: Option<string>,
    onUnavailable: Option<string>,
    pstnToBrowser: bool,
    pstnTarget: Option<string>,
    dnd: bool,
    ratePlanId: Option<int>,
    outboundCallerId: Option<string>,
    balance: Option<real>,
    balanceCurrency: Option<string>)

  const CLEARED: Detail := Detail([], None, None, None, false, None, false, None, None, None, None)

  datatype Row =
    | Blocking(extension: string, number: string)
    | Forwarding(extension: string, kind: string, target: Option<string>)
    | Settings(extension: string, pstnEnabled: bool, pstnMobile: Option<string>, dnd: bool,
               ratePlanId: Option<int>, outboundCallerId: Option<string>)
    | Wallet(extension: string, balance: real, currency: string)

  datatype Tables = Tables(blocked: seq<Row>, forwarding: seq<Row>, settings: seq<Row>, wallets: seq<Row>) {
    /** Each table holds its own kind of row. */
    ghost predicate Typed() {
      && (forall i :: 0 <= i < |blocked| ==> blocked[i].Blocking?)
      && (forall i :: 0 <= i < |forwarding| ==> forwarding[i].Forwarding?)
      && (forall i :: 0 <= i < |settings| ==> settings[i].Settings?)
      && (forall i :: 0 <= i < |wallets| ==> wallets[i].Wallet?)
    }
  }

  /** An empty text counts as absent. */
  function Present(text: Option<string>): Option<string> {
    if text == Some("") then None else text
  }

  function Applied(d: Detail, row: Row): Detail {
    match row
    case Blocking(_, number) => d.(blocked := d.blocked + [number])
    case Forwarding(_, kind, target) =>
      if kind == "busy" then d.(onBusy := Present(target))
      else if kind == "noAnswer" then d.(onNoAnswer := Present(target))
      else if kind == "unavailable" then d.(onUnavailable := Present(target))
      else d
    case Settings(_, enabled, mobile, dnd, plan, callerId) =>
      d.(pstnToBrowser := enabled, pstnTarget := Present(mobile), dnd := dnd, ratePlanId := plan, outboundCallerId := callerId)
    case Wallet(_, balance, currency) =>
      d.(balance := Some(balance), balanceCurrency := Present(Some(currency)))
  }

  /** The rows of one extension, in table order: what the query for that extension returns. */
  function Select(rows: seq<Row>, extension: string): seq<Row> {
    if rows == [] then []
    else
      var n := |rows| - 1;
      Select(rows[..n], extension) + (if rows[n].extension == extension then [rows[n]] else [])
  }

  function AllApplied(d: Detail, rows: seq<Row>): Detail {
    if rows == [] then d else Applied(AllApplied(d, rows[..|rows| - 1]), rows[|rows| - 1])
  }

  // ----- one user -----

  function Numbers(rows: seq<Row>): seq<string> {
    if rows == [] then []
    else
      var row := rows[|rows| - 1];
      Numbers(rows[..|rows| - 1]) + (if row.Blocking? then [row.number] else [])
  }

  function FirstOf(rows: seq<Row>): Option<Row> {
    if rows == [] then None else Some(rows[0])
  }

  /** The detail built from one user's query results; nothing of the previous detail is left. */
  function Refreshed(blocked: seq<Row>, forwarding: seq<Row>, settings: Option<Row>, wallet: Option<Row>, prepaid: bool): Detail {
    var forwards := AllApplied(CLEARED.(blocked := Numbers(blocked)), forwarding);
    var settled := if settings.Some? then Applied(forwards, settings.value) else forwards;
    if prepaid && wallet.Some? then Applied(settled, wallet.value) else settled
  }

  /** What `hydrateUserDetail` leaves on the user of this extension. */
  function PerUser(t: Tables, extension: string, prepaid: bool): Detail {
    Refreshed(Select(t.blocked, extension), Select(t.forwarding, extension),
              FirstOf(Select(t.settings, extension)), FirstOf(Select(t.wallets, extension)), prepaid)
  }

  // ----- all users -----

  /** `keys` is the insertion order of the lookup map, `at` the object under each key, `ext` each object's extension. */
  datatype Store = Store(keys: seq<string>, at: map<string, int>, ext: map<int, string>, details: map<int, Detail>) {
    ghost predicate Valid() {
      && (forall i :: 0 <= i < |keys| ==> keys[i] in at)
      && (forall k :: k in at ==> k in keys && at[k] in ext && at[k] in details)
    }
  }

  /** The extensions seen and the objects listed after the first `n` keys: one object per extension. */
  datatype Listing = Listing(seen: set<string>, objects: set<int>)

  function Listed(s: Store, n: nat): Listing
    requires s.Valid() && n <= |s.keys|
  {
    if n == 0 then Listing({}, {})
    else
      var l := Listed(s, n - 1);
      var u := s.at[s.keys[n - 1]];
      if s.ext[u] in l.seen then l else Listing(l.seen + {s.ext[u]}, l.objects + {u})
  }

  function ResetAll(details: map<int, Detail>, objects: set<int>): map<int, Detail> {
    map u | u in details :: if u in objects then CLEARED else details[u]
  }

  /** A row goes to the object that its extension leads to, if any. */
  function RowApplied(at: map<string, int>, details: map<int, Detail>, row: Row): map<int, Detail> {
    if row.extension in at && at[row.extension] in details
    then details[at[row.extension] := Applied(details[at[row.extension]], row)] else details
  }

  function RowsApplied(at: map<string, int>, details: map<int, Detail>, rows: seq<Row>): map<int, Detail> {
    if rows == [] then details
    else RowApplied(at, RowsApplied(at, details, rows[..|rows| - 1]), rows[|rows| - 1])
  }

  function Bulk(s: Store, t: Tables, prepaid: bool): map<int, Detail>
    requires s.Valid()
  {
    var reset := ResetAll(s.details, Listed(s, |s.keys|).objects);
    var routed := RowsApplied(s.at, RowsApplied(s.at, RowsApplied(s.at, reset, t.blocked), t.forwarding), t.settings);
    if prepaid then RowsApplied(s.at, routed, t.wallets) else routed
  }

  /** Forwarding rows set the three forwarding fields alike whatever the other fields hold. */
  lemma {:induction false} ForwardingOnly(d: Detail, c: Detail, rows: seq<Row>)
    requires forall i :: 0 <= i < |rows| ==> rows[i].Forwarding?
    requires c == CLEARED.(blocked := d.blocked, onBusy := d.onBusy, onNoAnswer := d.onNoAnswer, onUnavailable := d.onUnavailable)
    ensures var x, y := AllApplied(d, rows), AllApplied(c, rows);
      && y == CLEARED.(blocked := x.blocked, onBusy := x.onBusy, onNoAnswer := x.onNoAnswer, onUnavailable := x.onUnavailable)
      && x.blocked == d.blocked
  {
    if rows != [] {
      ForwardingOnly(d, c, rows[..|rows| - 1]);
    }
  }

  class UserStore {
    const keys: seq<string>
    const at: map<string, int>
    const ext: map<int, string>
    var details: map<int, Detail>

    ghost function Model(): Store
      reads this
    {
      Store(keys, at, ext, details)
    }

    constructor (s: Store)
      ensures Model() == s
    {
      keys, at, ext, details := s.keys, s.at, s.ext, s.details;
    }

    method ApplyRows(rows: seq<Row>)
      modifies this
      ensures details == RowsApplied(at, old(details), rows)
    {
      for i := 0 to |rows|
        invariant details == RowsApplied(at, old(details), rows[..i])
      {
        assert rows[..i + 1][..i] == rows[..i];
        var row := rows[i];
        if row.extension in at && at[row.extension] in details {
          details := details[at[row.extension] := Applied(details[at[row.extension]], row)];
        }
      }
      assert rows[..|rows|] == rows;
    }

    method HydrateAllDetail(t: Tables, prepaid: bool)
      requires Model().Valid()
      modifies this
      ensures details == Bulk(old(Model()), t, prepaid)
    {
      var seen: set<string>, objects: set<int> := {}, {};
      for i := 0 to |keys|
        invariant Listing(seen, objects) == Listed(Model(), i)
      {
        var u := at[keys[i]];
        if ext[u] !in seen {
          seen := seen + {ext[u]};
          objects := objects + {u};
        }
      }
      details := map u | u in details :: if u in objects then CLEARED else details[u];
      ApplyRows(t.blocked);
      ApplyRows(t.forwarding);
      ApplyRows(t.settings);
      if prepaid {
        ApplyRows(t.wallets);
      }
    }

    /** The queries' results are the arguments; the settings and wallet queries return at most one row. */
    method HydrateUserDetail(extension: string, blocked: seq<Row>, forwarding: seq<Row>, settings: Option<Row>,
                             wallet: Option<Row>, prepaid: bool)
      requires Model().Valid()
      requires (settings.Some? ==> settings.value.Settings?) && (wallet.Some? ==> wallet.value.Wallet?)
      requires forall i :: 0 <= i < |forwarding| ==> forwarding[i].Forwarding?
      modifies this
      ensures details == if extension !in at then old(details)
        else old(details)[at[extension] := Refreshed(blocked, forwarding, settings, wallet, prepaid)]
    {
      if extension !in at {
        return;
      }
      var user := details[at[extension]];
      var numbers: seq<string> := [];
      for i := 0 to |blocked|
        invariant numbers == Numbers(blocked[..i])
      {
        assert blocked[..i + 1][..i] == blocked[..i];
        if blocked[i].Blocking? {
          numbers := numbers + [blocked[i].number];
        }
      }
      assert blocked[..|blocked|] == blocked;
      user := user.(blocked := numbers, onBusy := None, onNoAnswer := None, onUnavailable := None);
      var start := user;
      for i := 0 to |forwarding|
        invariant user == AllApplied(start, forwarding[..i])
      {
        assert forwarding[..i + 1][..i] == forwarding[..i];
        user := Applied(user, forwarding[i]);
      }
      assert forwarding[..|forwarding|] == forwarding;
      if settings.Some? {
        user := Applied(user, settings.value);
      } else {
        user := user.(pstnToBrowser := false, pstnTarget := None, dnd := false, ratePlanId := None, outboundCallerId := None);
      }
      if prepaid && wallet.Some? {
        user := Applied(user, wallet.value);
      } else {
        user := user.(balance := None, balanceCurrency := None);
      }
      ForwardingOnly(start, CLEARED.(blocked := numbers), forwarding);
      details := details[at[extension] := user];
    }
  }

  // ----- bulk and per-user loading agree -----

  /** Every object is the one its own extension leads to: no two objects share an extension. */
  ghost predicate OneObjectPerExtension(s: Store)
    requires s.Valid()
  {
    forall k :: k in s.at ==> s.ext[s.at[k]] in s.at && s.at[s.ext[s.at[k]]] == s.at[k]
  }

  /** No row's extension is another user's other key, such as a user name. */
  ghost predicate RowsFit(s: Store, rows: seq<Row>)
    requires s.Valid()
  {
    forall i :: 0 <= i < |rows| && rows[i].extension in s.at ==> s.ext[s.at[rows[i].extension]] == rows[i].extension
  }

  lemma {:induction false} EveryUserListed(s: Store, n: nat)
    requires s.Valid() && n <= |s.keys| && OneObjectPerExtension(s)
    ensures forall i :: 0 <= i < n ==> s.at[s.keys[i]] in Listed(s, n).objects
    ensures forall x :: x in Listed(s, n).seen ==> x in s.at && s.at[x] in Listed(s, n).objects
  {
    if n > 0 {
      EveryUserListed(s, n - 1);
    }
  }

  /** Seen from one user, applying interleaved rows is applying that user's own rows. */
  lemma {:induction false} RowsProjected(s: Store, details: map<int, Detail>, rows: seq<Row>, e: string)
    requires s.Valid() && RowsFit(s, rows) && e in s.at && s.ext[s.at[e]] == e && s.at[e] in details
    ensures var after := RowsApplied(s.at, details, rows);
      s.at[e] in after && after[s.at[e]] == AllApplied(details[s.at[e]], Select(rows, e))
  {
    if rows != [] {
      var n := |rows| - 1;
      var row := rows[n];
      assert RowsFit(s, rows[..n]);
      RowsProjected(s, details, rows[..n], e);
      var own := Select(rows[..n], e);
      if row.extension == e {
        assert (own + [row])[..|own|] == own;
      } else {
        assert own + [] == own;
        assert row.extension in s.at ==> s.at[row.extension] != s.at[e];
      }
    }
  }

  lemma {:induction false} BlockingOnly(d: Detail, rows: seq<Row>)
    requires forall i :: 0 <= i < |rows| ==> rows[i].Blocking?
    ensures AllApplied(d, rows) == d.(blocked := d.blocked + Numbers(rows))
  {
    if rows != [] {
      BlockingOnly(d, rows[..|rows| - 1]);
    } else {
      assert d.blocked + [] == d.blocked;
    }
  }

  lemma AtMostOne(d: Detail, rows: seq<Row>)
    requires |rows| <= 1
    ensures AllApplied(d, rows) == if rows == [] then d else Applied(d, rows[0])
  {
    if rows != [] {
      assert rows[..0] == [];
    }
  }

  lemma {:induction false} SelectTyped(rows: seq<Row>, extension: string)
    ensures forall row :: row in Select(rows, extension) ==> row in rows && row.extension == extension
  {
    if rows != [] {
      SelectTyped(rows[..|rows| - 1], extension);
    }
  }

  /** One user's own rows, table after table, are what the per-user queries give. */
  lemma OwnRowsAreRefresh(t: Tables, e: string, prepaid: bool)
    requires t.Typed() && |Select(t.settings, e)| <= 1 && |Select(t.wallets, e)| <= 1
    ensures var settled := AllApplied(AllApplied(AllApplied(CLEARED, Select(t.blocked, e)), Select(t.forwarding, e)), Select(t.settings, e));
      PerUser(t, e, prepaid) == if prepaid then AllApplied(settled, Select(t.wallets, e)) else settled
  {
    SelectTyped(t.blocked, e);
    BlockingOnly(CLEARED, Select(t.blocked, e));
    assert [] + Numbers(Select(t.blocked, e)) == Numbers(Select(t.blocked, e));
    var forwards := AllApplied(AllApplied(CLEARED, Select(t.blocked, e)), Select(t.forwarding, e));
    AtMostOne(forwards, Select(t.settings, e));
    AtMostOne(AllApplied(forwards, Select(t.settings, e)), Select(t.wallets, e));
  }

  lemma ResetClears(s: Store, e: string)
    requires s.Valid() && OneObjectPerExtension(s) && e in s.at
    ensures var reset := ResetAll(s.details, Listed(s, |s.keys|).objects);
      s.at[e] in reset && reset[s.at[e]] == CLEARED
  {
    EveryUserListed(s, |s.keys|);
    assert e in s.keys;
  }

  /**
   * Bulk loading leaves every user with exactly the detail that loading that
   * user alone computes from the same tables, however the rows of different
   * users interleave.
   */
  lemma BulkIsPerUser(s: Store, t: Tables, prepaid: bool, e: string)
    requires s.Valid() && OneObjectPerExtension(s) && t.Typed()
    requires RowsFit(s, t.blocked) && RowsFit(s, t.forwarding) && RowsFit(s, t.settings) && RowsFit(s, t.wallets)
    requires e in s.at && s.ext[s.at[e]] == e
    requires |Select(t.settings, e)| <= 1 && |Select(t.wallets, e)| <= 1
    ensures s.at[e] in Bulk(s, t, prepaid) && Bulk(s, t, prepaid)[s.at[e]] == PerUser(t, e, prepaid)
  {
    var u := s.at[e];
    var reset := ResetAll(s.details, Listed(s, |s.keys|).objects);
    ResetClears(s, e);
    var a := RowsApplied(s.at, reset, t.blocked);
    RowsProjected(s, reset, t.blocked, e);
    var b := RowsApplied(s.at, a, t.forwarding);
    RowsProjected(s, a, t.forwarding, e);
    var c := RowsApplied(s.at, b, t.settings);
    RowsProjected(s, b, t.settings, e);
    RowsProjected(s, c, t.wallets, e);
    OwnRowsAreRefresh(t, e, prepaid);
  }

  // ----- what the detail says -----

  /** The numbers that the extension blocks, in table order. */
  ghost function NumbersOf(rows: seq<Row>, e: string): seq<string> {
    if rows == [] then []
    else
      var n := |rows| - 1;
      NumbersOf(rows[..n], e) + (if rows[n].Blocking? && rows[n].extension == e then [rows[n].number] else [])
  }

  /** The target of the extension's last rule of this kind, an empty one counting as none. */
  ghost function TargetOf(rows: seq<Row>, e: string, kind: string): Option<string> {
    if rows == [] then None
    else
      var n := |rows| - 1;
      if rows[n].Forwarding? && rows[n].extension == e && rows[n].kind == kind
      then (if rows[n].target == Some("") then None else rows[n].target)
      else TargetOf(rows[..n], e, kind)
  }

  /** The extension's first row in the table. */
  ghost function RowOf(rows: seq<Row>, e: string): Option<Row> {
    if rows == [] then None
    else
      var before := RowOf(rows[..|rows| - 1], e);
      if before.None? && rows[|rows| - 1].extension == e then Some(rows[|rows| - 1]) else before
  }

  lemma {:induction false} NumbersSelected(rows: seq<Row>, e: string)
    ensures Numbers(Select(rows, e)) == NumbersOf(rows, e)
  {
    if rows != [] {
      var n := |rows| - 1;
      NumbersSelected(rows[..n], e);
      var own := Select(rows[..n], e);
      assert (own + [rows[n]])[..|own|] == own && own + [] == own;
    }
  }

  lemma {:induction false} RowSelected(rows: seq<Row>, e: string)
    ensures FirstOf(Select(rows, e)) == RowOf(rows, e)
  {
    if rows != [] {
      RowSelected(rows[..|rows| - 1], e);
    }
  }

  lemma OneMoreApplied(d: Detail, rows: seq<Row>, row: Row)
    ensures AllApplied(d, rows + [row]) == Applied(AllApplied(d, rows), row)
  {
    assert (rows + [row])[..|rows|] == rows;
  }

  ghost function WithTargets(d: Detail, rows: seq<Row>, e: string): Detail {
    d.(onBusy := TargetOf(rows, e, "busy"), onNoAnswer := TargetOf(rows, e, "noAnswer"),
       onUnavailable := TargetOf(rows, e, "unavailable"))
  }

  lemma OneMoreTarget(d: Detail, rows: seq<Row>, row: Row, e: string)
    requires row.Forwarding?
    ensures WithTargets(d, rows + [row], e) ==
      if row.extension == e then Applied(WithTargets(d, rows, e), row) else WithTargets(d, rows, e)
  {
    assert (rows + [row])[..|rows|] == rows;
    assert |"busy"| == 4 && |"noAnswer"| == 8 && |"unavailable"| == 11;
  }

  lemma {:induction false} TargetsSelected(d: Detail, rows: seq<Row>, e: string)
    requires forall i :: 0 <= i < |rows| ==> rows[i].Forwarding?
    requires d.onBusy.None? && d.onNoAnswer.None? && d.onUnavailable.None?
    ensures AllApplied(d, Select(rows, e)) == WithTargets(d, rows, e)
  {
    if rows != [] {
      var n := |rows| - 1;
      var init, row := rows[..n], rows[n];
      TargetsSelected(d, init, e);
      assert rows == init + [row];
      OneMoreTarget(d, init, row, e);
      OneMoreApplied(d, Select(init, e), row);
      assert Select(init, e) + [] == Select(init, e);
    }
  }

  lemma {:induction false} RowIsIn(rows: seq<Row>, e: string)
    ensures RowOf(rows, e).Some? ==> RowOf(rows, e).value in rows && RowOf(rows, e).value.extension == e
  {
    if rows != [] {
      RowIsIn(rows[..|rows| - 1], e);
    }
  }

  /**
   * What loading a user gives, field by field: the numbers of its rows, the
   * target of its last rule of each kind, its settings row and, when prepaid, its
   * wallet row.
   */
  lemma PerUserIs(t: Tables, e: string, prepaid: bool)
    requires t.Typed()
    ensures var settings, wallet := RowOf(t.settings, e), RowOf(t.wallets, e);
      var d := PerUser(t, e, prepaid);
      && d.blocked == NumbersOf(t.blocked, e)
      && d.onBusy == TargetOf(t.forwarding, e, "busy")
      && d.onNoAnswer == TargetOf(t.forwarding, e, "noAnswer")
      && d.onUnavailable == TargetOf(t.forwarding, e, "unavailable")
      && (settings.None? ==>
            !d.pstnToBrowser && d.pstnTarget.None? && !d.dnd && d.ratePlanId.None? && d.outboundCallerId.None?)
      && (settings.Some? ==>
            && settings.value.Settings?
            && d.pstnToBrowser == settings.value.pstnEnabled
            && d.pstnTarget == (if settings.value.pstnMobile == Some("") then None else settings.value.pstnMobile)
            && d.dnd == settings.value.dnd
            && d.ratePlanId == settings.value.ratePlanId
            && d.outboundCallerId == settings.value.outboundCallerId)
      && (!prepaid || wallet.None? ==> d.balance.None? && d.balanceCurrency.None?)
      && (prepaid && wallet.Some? ==>
            && wallet.value.Wallet?
            && d.balance == Some(wallet.value.balance)
            && d.balanceCurrency == (if wallet.value.currency == "" then None else Some(wallet.value.currency)))
  {
    NumbersSelected(t.blocked, e);
    TargetsSelected(CLEARED.(blocked := NumbersOf(t.blocked, e)), t.forwarding, e);
    RowSelected(t.settings, e);
    RowSelected(t.wallets, e);
    RowIsIn(t.settings, e);
    RowIsIn(t.wallets, e);
  }
}
