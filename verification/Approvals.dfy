/** The approval store: granting, expiry and single use. */
module Approvals {
  import opened Wrappers
  import opened JsText

  datatype Details = Details(operation: JsString, target: JsString, proposalHash: JsString)

  datatype Approval = Approval(id: JsString, details: Details, createdAt: int, expiresAt: int)

  function Unexpired(approvals: seq<Approval>, now: int): (r: seq<Approval>) {
    if approvals == [] then []
    else (if approvals[0].expiresAt > now then [approvals[0]] else []) + Unexpired(approvals[1..], now)
  }

  /** The position of the first approval with the given id, or the length when there is none. */
  function IndexOf(approvals: seq<Approval>, id: JsString): (i: nat)
    ensures i <= |approvals|
    ensures i < |approvals| ==> approvals[i].id == id
    ensures i == |approvals| <==> forall a :: a in approvals ==> a.id != id
  {
    if approvals == [] then 0 else if approvals[0].id == id then 0 else 1 + IndexOf(approvals[1..], id)
  }

  const APPROVE := Ascii("APPROVE ")

  /** The confirmation an operator has to type: the first twelve digits of the hash. */
  function ConfirmText(proposalHash: JsString): (t: JsString) {
    APPROVE + if |proposalHash| <= 12 then proposalHash else proposalHash[..12]
  }

  /** What the store checks of a request; the text checks on the details are a parameter. */
  datatype Request =
    Request(details: Details, confirmText: JsString, wellFormed: bool, now: int, ttlSeconds: int, id: JsString)

  datatype Grant = Refused | Granted(approvals: seq<Approval>, approval: Approval)

  function Approve(approvals: seq<Approval>, writesEnabled: bool, r: Request): (g: Grant) {
    if !writesEnabled || r.confirmText != ConfirmText(r.details.proposalHash) || !r.wellFormed then Refused
    else
      var live := Unexpired(approvals, r.now);
      if IndexOf(live, r.id) < |live| then Refused
      else
        var a := Approval(r.id, r.details, r.now, r.now + r.ttlSeconds * 1000);
        Granted(live + [a], a)
  }

  datatype Consumption =
    | NoneGiven(approvals: seq<Approval>)
    | NotFound(approvals: seq<Approval>)
    | Mismatch(approvals: seq<Approval>)
    | Consumed(approvals: seq<Approval>, approval: Approval)

  function Consume(approvals: seq<Approval>, details: Details, id: Option<JsString>, now: int): (c: Consumption) {
    if id.None? || id.value == [] then NoneGiven(approvals)
    else
      var live := Unexpired(approvals, now);
      var i := IndexOf(live, id.value);
      if i == |live| then NotFound(live)
      else if live[i].details != details then Mismatch(approvals)
      else Consumed(live[..i] + live[i + 1..], live[i])
  }

  /** The store's file: missing, unreadable, a list of the old schema, or an envelope. */
  datatype Stored = Absent | Corrupt | Legacy | Envelope(approvals: seq<Approval>)

  /** What a readable file offers; the old schema is not trusted. */
  function Readable(file: Stored): (approvals: seq<Approval>) {
    if file.Envelope? then file.approvals else []
  }

  /** The file after a successful load: an old list is set aside for an empty envelope. */
  function Loaded(file: Stored): (r: Stored) {
    if file == Legacy then Envelope([]) else file
  }

  /** The store's file, read and rewritten in one synchronous turn. */
  class ApprovalFile {
    var file: Stored

    constructor ()
      ensures file == Absent
    {
      file := Absent;
    }

    /** An unreadable file is set aside and nothing is accepted. */
    method LoadApprovals() returns (approvals: Option<seq<Approval>>)
      modifies this
      ensures match old(file)
              case Absent => approvals == Some([]) && file == Absent
              case Corrupt => approvals == None && file == Absent
              case Legacy => approvals == Some([]) && file == Envelope([])
              case Envelope(stored) => approvals == Some(stored) && file == Envelope(stored)
    {
      match file
      case Absent => approvals := Some([]);
      case Corrupt =>
        file := Absent;
        approvals := None;
      case Legacy =>
        file := Envelope([]);
        approvals := Some([]);
      case Envelope(stored) => approvals := Some(stored);
    }

    /** Grants exactly what the specification grants from the readable approvals; otherwise stores nothing new. */
    method ApproveWrite(writesEnabled: bool, r: Request) returns (granted: Option<Approval>)
      modifies this
      ensures var asked := writesEnabled && r.confirmText == ConfirmText(r.details.proposalHash) && r.wellFormed;
              var g := Approve(Readable(old(file)), writesEnabled, r);
              if !asked then granted == None && file == old(file)
              else if old(file) == Corrupt then granted == None && file == Absent
              else if g.Granted? then granted == Some(g.approval) && file == Envelope(g.approvals)
              else granted == None && file == Loaded(old(file))
    {
      if !writesEnabled || r.confirmText != ConfirmText(r.details.proposalHash) || !r.wellFormed {
        return None;
      }
      var loaded := LoadApprovals();
      if loaded.None? {
        return None;
      }
      var live := Unexpired(loaded.value, r.now);
      if IndexOf(live, r.id) < |live| {
        return None;
      }
      var a := Approval(r.id, r.details, r.now, r.now + r.ttlSeconds * 1000);
      file := Envelope(live + [a]);
      granted := Some(a);
    }

    /**
     Without the gate everything passes. With it, succeeds exactly if a matching unexpired approval is
     readable; it is gone afterwards, and so are expired ones once the store is rewritten.
     */
    method AssertWriteApproved(required: bool, details: Details, id: Option<JsString>, now: int) returns (ok: bool)
      modifies this
      ensures !required ==> ok && file == old(file)
      ensures required && (id.None? || id.value == []) ==> !ok && file == old(file)
      ensures required && id.Some? && id.value != [] ==>
                if old(file) == Corrupt then !ok && file == Absent
                else
                  var c := Consume(Readable(old(file)), details, id, now);
                  ok == c.Consumed? && Readable(file) == c.approvals && (file == Loaded(old(file)) || file.Envelope?)
    {
      if !required {
        return true;
      }
      if id.None? || id.value == [] {
        return false;
      }
      var loaded := LoadApprovals();
      if loaded.None? {
        return false;
      }
      var live := Unexpired(loaded.value, now);
      var i := IndexOf(live, id.value);
      if i == |live| {
        UnexpiredLength(loaded.value, now);
        if |live| != |loaded.value| {
          file := Envelope(live);
        }
        return false;
      }
      if live[i].details != details {
        return false;
      }
      file := Envelope(live[..i] + live[i + 1..]);
      ok := true;
    }
  }

  /** If none has expired the list stays the same. */
  lemma {:induction false} UnexpiredLength(approvals: seq<Approval>, now: int)
    ensures |Unexpired(approvals, now)| <= |approvals|
    ensures |Unexpired(approvals, now)| == |approvals| ==> Unexpired(approvals, now) == approvals
  {
    if approvals != [] {
      UnexpiredLength(approvals[1..], now);
      assert approvals == [approvals[0]] + approvals[1..];
    }
  }

  /******* Properties *******/

  ghost predicate DistinctIds(approvals: seq<Approval>) {
    forall i, j :: 0 <= i < j < |approvals| ==> approvals[i].id != approvals[j].id
  }

  lemma {:induction false} UnexpiredExactly(approvals: seq<Approval>, now: int)
    ensures forall a :: a in Unexpired(approvals, now) <==> a in approvals && a.expiresAt > now
    ensures DistinctIds(approvals) ==> DistinctIds(Unexpired(approvals, now))
  {
    if approvals != [] {
      UnexpiredExactly(approvals[1..], now);
      var rest := Unexpired(approvals[1..], now);
      assert approvals == [approvals[0]] + approvals[1..];
      if DistinctIds(approvals) {
        assert DistinctIds(approvals[1..]) by {
          assert forall i :: 0 <= i < |approvals| - 1 ==> approvals[1..][i] == approvals[i + 1];
        }
        forall i | 0 <= i < |rest| ensures rest[i].id != approvals[0].id {
          assert rest[i] in approvals[1..];
        }
      }
    }
  }

  /**
   A consumed approval was in the store, unexpired, with exactly the asked details; afterwards the
   store holds the other unexpired approvals and no approval with its id.
   */
  lemma ConsumedOnce(approvals: seq<Approval>, details: Details, id: Option<JsString>, now: int)
    requires DistinctIds(approvals)
    ensures var c := Consume(approvals, details, id, now);
            DistinctIds(c.approvals) &&
            (forall a :: a in c.approvals ==> a in approvals) &&
            (c.Consumed? ==>
              id == Some(c.approval.id) && c.approval in approvals && c.approval.expiresAt > now &&
              c.approval.details == details &&
              forall a :: a in c.approvals <==> a in approvals && a.expiresAt > now && a.id != c.approval.id)
  {
    UnexpiredExactly(approvals, now);
    var live := Unexpired(approvals, now);
    if id.Some? && IndexOf(live, id.value) < |live| {
      OthersRemain(live, IndexOf(live, id.value));
    }
  }

  lemma OthersRemain(live: seq<Approval>, i: nat)
    requires DistinctIds(live) && i < |live|
    ensures var rest := live[..i] + live[i + 1..];
            DistinctIds(rest) && forall a :: a in rest <==> a in live && a.id != live[i].id
  {
    var rest := live[..i] + live[i + 1..];
    assert forall j :: 0 <= j < |rest| ==> rest[j] == if j < i then live[j] else live[j + 1];
    forall a | a in live && a.id != live[i].id ensures a in rest {
      var j :| 0 <= j < |live| && live[j] == a;
      assert a == rest[if j < i then j else j - 1];
    }
  }

  /** A consumed approval cannot be consumed again, whatever is asked and whenever. */
  lemma SingleUse(approvals: seq<Approval>, details: Details, id: Option<JsString>, now: int, again: Details,
                  later: int)
    requires DistinctIds(approvals)
    requires Consume(approvals, details, id, now).Consumed?
    ensures Consume(Consume(approvals, details, id, now).approvals, again, id, later).NotFound?
  {
    ConsumedOnce(approvals, details, id, now);
    var after := Consume(approvals, details, id, now).approvals;
    UnexpiredExactly(after, later);
  }

  /** A grant adds one approval with the requested details and keeps the ids distinct. */
  lemma GrantedDistinct(approvals: seq<Approval>, writesEnabled: bool, r: Request)
    requires DistinctIds(approvals) && Approve(approvals, writesEnabled, r).Granted?
    ensures var g := Approve(approvals, writesEnabled, r);
            DistinctIds(g.approvals) && g.approval.details == r.details && g.approval.id == r.id &&
            (forall a :: a in g.approvals <==> (a in approvals && a.expiresAt > r.now) || a == g.approval)
  {
    UnexpiredExactly(approvals, r.now);
  }

  /**
   A request is granted exactly if writes are enabled, the operator typed APPROVE and the first twelve digits
   of the hash, the details pass their checks, and no unexpired approval has the id. The approval runs out
   after the given number of seconds.
   */
  lemma GrantedIff(approvals: seq<Approval>, writesEnabled: bool, r: Request)
    ensures var g := Approve(approvals, writesEnabled, r);
            var hash := r.details.proposalHash;
            var digits := if |hash| > 12 then hash[..12] else hash;
            (g.Granted? <==>
               writesEnabled && r.confirmText == Ascii("APPROVE ") + digits && r.wellFormed &&
               forall a :: a in approvals && a.expiresAt > r.now ==> a.id != r.id) &&
            (g.Granted? ==>
               g.approval.createdAt == r.now && g.approval.expiresAt - g.approval.createdAt == 1000 * r.ttlSeconds)
  {
    UnexpiredExactly(approvals, r.now);
  }

  /** An approval is consumed exactly if the store holds a live one of the id with exactly the asked details. */
  lemma ConsumedIff(approvals: seq<Approval>, details: Details, id: Option<JsString>, now: int)
    requires DistinctIds(approvals)
    ensures var c := Consume(approvals, details, id, now);
            (c.Consumed? <==>
               id.Some? && id.value != [] &&
               exists a :: a in approvals && a.id == id.value && a.expiresAt > now && a.details == details) &&
            (c.Mismatch? <==>
               id.Some? && id.value != [] &&
               exists a :: a in approvals && a.id == id.value && a.expiresAt > now && a.details != details) &&
            (c.Mismatch? ==> c.approvals == approvals)
  {
    UnexpiredExactly(approvals, now);
    var live := Unexpired(approvals, now);
    if id.Some? && IndexOf(live, id.value) < |live| {
      SameIdSame(live, IndexOf(live, id.value));
    }
  }

  lemma SameIdSame(live: seq<Approval>, i: nat)
    requires DistinctIds(live) && i < |live|
    ensures live[i] in live && forall a :: a in live && a.id == live[i].id ==> a == live[i]
  {
    forall a | a in live && a.id == live[i].id ensures a == live[i] {
      var j :| 0 <= j < |live| && live[j] == a;
    }
  }
}
