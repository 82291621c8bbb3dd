/**
 * The lead endpoint (`POST` in app/api/leads/route.ts). A contact request
 * needs a valid phone; an order (a non-empty cart) is accepted with any
 * phone. A lead row goes to the database when the phone is valid; the cart
 * snapshot goes to `logs/orders.json`; when the database is unavailable
 * exactly one record goes to `orders.json` or `leads.json` instead.
 *
 * The database and the two log files are fields of `LeadStore`; whether the
 * database answers, the id it assigns, the clock and whether a log file
 * parses are parameters.
 */
module Leads {
  import opened Wrappers
  import opened Text
  import Cart

  /** The JSON body, each field `None` when absent or of the wrong type. */
  datatype Body = Body(phone: Option<string>, kind: Option<string>, cart: Option<seq<Cart.CartItem>>, total: Option<int>)

  /** The defaults of lines 10-13. */
  datatype Lead = Lead(phone: string, kind: string, cart: seq<Cart.CartItem>, total: int)

  datatype DbLead = DbLead(id: string, phone: string, kind: string)

  datatype LogRecord =
    | OrderRecord(id: string, phone: Option<string>, kind: string, total: int, cart: seq<Cart.CartItem>, createdAt: string)
    | ContactRecord(id: string, contact: string, kind: string, createdAt: string)

  /** The JSON reply: the 400 for a bad phone, or `{ ok: true, id }`. */
  datatype Reply = BadPhone | Accepted(id: Option<string>)

  /** The answer of the database: `Up(id)` creates a lead with that id, `Down` throws. */
  datatype Db = Up(newId: string) | Down

  /** What one request does. */
  datatype Effect = Effect(reply: Reply, dbLead: Option<DbLead>, toOrders: Option<LogRecord>, toLeads: Option<LogRecord>)

  /** `body?.x || default`, `Array.isArray(cart) ? cart : []`, `typeof total === 'number' ? total : 0`. */
  function Defaults(b: Body): (l: Lead)
    ensures l.kind != []
    ensures l.total == (if b.total.Some? then b.total.value else 0)
  {
    Lead(
      if b.phone.Some? then b.phone.value else "",
      if b.kind.Some? && b.kind.value != [] then b.kind.value else "contact",
      if b.cart.Some? then b.cart.value else [],
      if b.total.Some? then b.total.value else 0)
  }

  /** One character of the class `[+\d\s()-]`. */
  predicate PhoneChar(c: char) {
    c == '+' || IsDigit(c) || IsWs(c) || c == '(' || c == ')' || c == '-'
  }

  /** `/^[+\d\s()-]{8,20}$/.test(phone)`. */
  predicate ValidPhone(phone: string) {
    8 <= |phone| <= 20 && forall i :: 0 <= i < |phone| ==> PhoneChar(phone[i])
  }

  function FileId(now: nat): string { "file:" + NatToString(now) }

  /** The effect of one request, for the given database answer, clock and ISO date. */
  function Post(b: Body, db: Db, now: nat, nowIso: string): (e: Effect)
    ensures var l := Defaults(b);
      e.reply == BadPhone <==> l.cart == [] && !ValidPhone(l.phone)
  {
    var l := Defaults(b);
    var hasCart := |l.cart| > 0;
    var phoneOrNull := if l.phone != [] then Some(l.phone) else None;
    if !hasCart && !ValidPhone(l.phone) then Effect(BadPhone, None, None, None)
    else match db
      case Up(id) =>
        var lead := if ValidPhone(l.phone) then Some(DbLead(id, l.phone, l.kind)) else None;
        if hasCart then
          var rec := OrderRecord(if lead.Some? then id else FileId(now), phoneOrNull, l.kind, l.total, l.cart, nowIso);
          Effect(Accepted(Some(rec.id)), lead, Some(rec), None)
        else
          Effect(Accepted(if lead.Some? then Some(id) else None), lead, None, None)
      case Down =>
        if hasCart then
          var rec := OrderRecord(FileId(now), phoneOrNull, l.kind, l.total, l.cart, nowIso);
          Effect(Accepted(Some(rec.id)), None, Some(rec), None)
        else
          var rec := ContactRecord(FileId(now), l.phone, l.kind, nowIso);
          Effect(Accepted(Some(rec.id)), None, None, Some(rec))
  }

  // ---------------------------------------------------------------------
  // Properties of one request
  // ---------------------------------------------------------------------

  /** A request with a cart is accepted whatever its phone. */
  lemma CartAlwaysAccepted(b: Body, db: Db, now: nat, nowIso: string)
    requires b.cart.Some? && b.cart.value != []
    ensures Post(b, db, now, nowIso).reply.Accepted?
    ensures Post(b, db, now, nowIso).toOrders.Some? && Post(b, db, now, nowIso).toLeads.None?
  {
  }

  /** A database lead is created exactly when the database answers and the phone is valid. */
  lemma LeadOnlyForValidPhone(b: Body, db: Db, now: nat, nowIso: string)
    ensures Post(b, db, now, nowIso).dbLead.Some? <==> db.Up? && ValidPhone(Defaults(b).phone)
    ensures Post(b, db, now, nowIso).dbLead.Some? ==> Post(b, db, now, nowIso).dbLead.value.phone == Defaults(b).phone
  {
  }

  /** With the database down, an accepted request leaves exactly one log record, in the file its cart selects. */
  lemma FallbackExactlyOne(b: Body, now: nat, nowIso: string)
    requires Post(b, Down, now, nowIso).reply.Accepted?
    ensures var e := Post(b, Down, now, nowIso);
      e.toOrders.Some? != e.toLeads.Some? && (e.toOrders.Some? <==> Defaults(b).cart != [])
      && e.dbLead.None?
  {
  }

  /** With the database up, only an order writes a log record, and it carries the database id when a lead was made. */
  lemma OrderRecordFields(b: Body, db: Db, now: nat, nowIso: string)
    requires Post(b, db, now, nowIso).toOrders.Some?
    ensures var l := Defaults(b);
      var rec := Post(b, db, now, nowIso).toOrders.value;
      rec.OrderRecord? && rec.cart == l.cart && rec.kind == l.kind && rec.total == l.total
      && rec.phone == (if l.phone == [] then None else Some(l.phone))
      && rec.id == (if db.Up? && ValidPhone(l.phone) then db.newId else FileId(now))
      && Post(b, db, now, nowIso).reply == Accepted(Some(rec.id))
  {
  }

  lemma NoLogForContactWithDb(b: Body, id: string, now: nat, nowIso: string)
    requires Defaults(b).cart == []
    ensures Post(b, Up(id), now, nowIso).toOrders.None? && Post(b, Up(id), now, nowIso).toLeads.None?
  {
  }

  /** `kind` defaults to `contact` and `total` to 0. */
  lemma DefaultsSpec(b: Body)
    ensures b.kind.None? ==> Defaults(b).kind == "contact"
    ensures b.total.None? ==> Defaults(b).total == 0
    ensures b.cart.None? ==> Defaults(b).cart == []
  {
  }

  // ---------------------------------------------------------------------
  // The stores
  // ---------------------------------------------------------------------

  function Appended(old_: seq<LogRecord>, parses: bool, rec: Option<LogRecord>): seq<LogRecord> {
    match rec
    case None => old_
    case Some(r) => (if parses then old_ else []) + [r]
  }

  class LeadStore {
    var leadTable: seq<DbLead>
    var orders: seq<LogRecord>
    var leads: seq<LogRecord>

    constructor ()
      ensures leadTable == [] && orders == [] && leads == []
    {
      leadTable := [];
      orders := [];
      leads := [];
    }

    /**
     * Handles one request: `arr.push(rec)` onto the file's array, read as
     * empty when the file does not parse (`parses` false).
     */
    method Handle(b: Body, db: Db, now: nat, nowIso: string, parses: bool) returns (reply: Reply)
      modifies this
      ensures var e := Post(b, db, now, nowIso);
        reply == e.reply
        && leadTable == old(leadTable) + (if e.dbLead.Some? then [e.dbLead.value] else [])
        && orders == Appended(old(orders), parses, e.toOrders)
        && leads == Appended(old(leads), parses, e.toLeads)
      ensures parses ==> |orders| + |leads| <= old(|orders|) + old(|leads|) + 1
      ensures parses ==> orders[..old(|orders|)] == old(orders) && leads[..old(|leads|)] == old(leads)
    {
      var e := Post(b, db, now, nowIso);
      if e.dbLead.Some? {
        leadTable := leadTable + [e.dbLead.value];
      }
      if e.toOrders.Some? {
        var arr := if parses then orders else [];
        arr := arr + [e.toOrders.value];
        orders := arr;
      }
      if e.toLeads.Some? {
        var arr := if parses then leads else [];
        arr := arr + [e.toLeads.value];
        leads := arr;
      }
      reply := e.reply;
    }
  }
}
