/** The list of pending map changes (internal/packets/context.go): one list that serves as three indexes. */
module PendingMaps {
  import opened Bytes
  import opened Packets

  datatype Entry = Entry(
    charId: uint32, connId: uint64, mapName: string, x: uint16, y: uint16,
    sourceIP: string, destIP: string, destPort: int)

  // ---------------------------------------------------------------- the operations on lists

  /** What the loops over the list look for. */
  datatype Query =
    | OfConnection(connId: uint64)
    | AtPosition(ip: string, x: uint16, y: uint16)
    | AtDestination(ip: string, port: int)
    | NamedPosition(ip: string, x: uint16, y: uint16, mapName: string)
    | NamedDestination(ip: string, port: int, mapName: string)

  predicate Fits(q: Query, e: Entry) {
    match q
    case OfConnection(connId) => e.connId == connId
    case AtPosition(ip, x, y) => e.sourceIP == ip && e.x == x && e.y == y
    case AtDestination(ip, port) => e.destIP == ip && e.destPort == port
    case NamedPosition(ip, x, y, mapName) => e.sourceIP == ip && e.mapName == mapName && e.x == x && e.y == y
    case NamedDestination(ip, port, mapName) => e.destIP == ip && e.destPort == port && e.mapName == mapName
  }

  /** The first entry that fits, or the length of the list. */
  function First(s: seq<Entry>, q: Query): (i: nat)
    ensures i <= |s| && (i < |s| ==> Fits(q, s[i])) && forall j :: 0 <= j < i ==> !Fits(q, s[j])
  {
    if s == [] || Fits(q, s[0]) then 0 else 1 + First(s[1..], q)
  }

  /** The last entry that fits, or -1. */
  function Last(s: seq<Entry>, q: Query): (i: int)
    ensures -1 <= i < |s| && (i >= 0 ==> Fits(q, s[i])) && forall j :: i < j < |s| ==> !Fits(q, s[j])
  {
    if s == [] then -1
    else if Fits(q, s[|s| - 1]) then |s| - 1
    else Last(s[..|s| - 1], q)
  }

  function Lookup(s: seq<Entry>, q: Query): Option<string> {
    var i := First(s, q);
    if i < |s| then Some(s[i].mapName) else None
  }

  datatype Operation =
    | SetConnection(charId: uint32, connId: uint64, mapName: string)           // SetConnectionMapChar
    | SetPosition(sourceIP: string, mapName: string, x: uint16, y: uint16)     // SetPendingMapChange
    | SetDestination(destIP: string, destPort: int, mapName: string)           // SetPendingMapByDestination
    | Rebind(charId: uint32, connId: uint64)                                   // SetPendingMapByCharId
    | Clear(connId: uint64)                                                    // ClearConnectionMap

  function Without(s: seq<Entry>, i: nat): (r: seq<Entry>)
    requires i < |s|
    ensures |r| == |s| - 1
    ensures forall j :: 0 <= j < |r| ==> r[j] == s[if j < i then j else j + 1]
  {
    s[..i] + s[i + 1..]
  }

  function Apply(s: seq<Entry>, op: Operation): seq<Entry> {
    match op
    case SetConnection(charId, connId, mapName) =>
      var i := First(s, OfConnection(connId));
      if i < |s| then s[i := s[i].(charId := charId, mapName := mapName)]
      else s + [Entry(charId, connId, mapName, 0, 0, "", "", 0)]
    case SetPosition(ip, mapName, x, y) =>
      if First(s, NamedPosition(ip, x, y, mapName)) < |s| then s
      else s + [Entry(0, 0, mapName, x, y, ip, "", 0)]
    case SetDestination(ip, port, mapName) =>
      if First(s, NamedDestination(ip, port, mapName)) < |s| then s
      else s + [Entry(0, 0, mapName, 0, 0, "", ip, port)]
    case Rebind(charId, connId) =>
      seq(|s|, i requires 0 <= i < |s| => if s[i].charId == charId then s[i].(connId := connId) else s[i])
    case Clear(connId) =>
      var i := Last(s, OfConnection(connId));
      if i >= 0 then Without(s, i) else s
  }

  function ApplyAll(s: seq<Entry>, ops: seq<Operation>): seq<Entry>
    decreases |ops|
  {
    if ops == [] then s else ApplyAll(Apply(s, ops[0]), ops[1..])
  }

  // ---------------------------------------------------------------- three kinds of entries

  predicate IsConnection(e: Entry) {
    e.connId != 0 && e.sourceIP == "" && e.destIP == ""
  }

  predicate IsPosition(e: Entry) {
    e.connId == 0 && e.charId == 0 && e.sourceIP != "" && e.destIP == ""
  }

  predicate IsDestination(e: Entry) {
    e.connId == 0 && e.charId == 0 && e.sourceIP == "" && e.destIP != ""
  }

  predicate OneKind(e: Entry) {
    IsConnection(e) || IsPosition(e) || IsDestination(e)
  }

  predicate SameKey(e: Entry, f: Entry) {
    && e.mapName == f.mapName
    && ((IsPosition(e) && IsPosition(f) && e.sourceIP == f.sourceIP && e.x == f.x && e.y == f.y)
        || (IsDestination(e) && IsDestination(f) && e.destIP == f.destIP && e.destPort == f.destPort))
  }

  ghost predicate Inv(s: seq<Entry>) {
    && (forall i :: 0 <= i < |s| ==> OneKind(s[i]))
    && (forall i, j :: 0 <= i < j < |s| ==> !SameKey(s[i], s[j]))
  }

  /** Connection numbers start at 1, and only those of real characters and addresses are stored. */
  predicate Proper(op: Operation) {
    match op
    case SetConnection(_, connId, _) => connId != 0
    case SetPosition(ip, _, _, _) => ip != ""
    case SetDestination(ip, _, _) => ip != ""
    case Rebind(charId, connId) => charId != 0 && connId != 0
    case Clear(connId) => connId != 0
  }

  lemma ApplyInv(s: seq<Entry>, op: Operation)
    requires Inv(s) && Proper(op)
    ensures Inv(Apply(s, op))
  {
    var s' := Apply(s, op);
    match op
    case SetConnection(_, connId, _) =>
      var i := First(s, OfConnection(connId));
      hide First;
      if i < |s| {
        assert IsConnection(s[i]);
        forall j, k | 0 <= j < k < |s'| ensures !SameKey(s'[j], s'[k]) {
          assert !SameKey(s[j], s[k]);
        }
      }
    case SetPosition(ip, mapName, x, y) =>
      hide First;
    case SetDestination(ip, port, mapName) =>
      hide First;
    case Rebind(charId, connId) =>
      RebindInv(s, charId, connId);
      hide Apply;
    case Clear(connId) => ClearInv(s, connId);
  }

  /** Rebinding leaves the three kinds apart exactly when it gives numbers to entries of connections and 0 to others:
      with a number that is not 0, exactly when the character is not 0 or there is no place in the list. */
  lemma RebindInv(s: seq<Entry>, charId: uint32, connId: uint64)
    requires Inv(s)
    ensures Inv(Apply(s, Rebind(charId, connId))) <==>
              forall i :: 0 <= i < |s| && s[i].charId == charId ==> (IsConnection(s[i]) <==> connId != 0)
    ensures connId != 0 ==>
              (Inv(Apply(s, Rebind(charId, connId))) <==>
                 charId != 0 || forall i :: 0 <= i < |s| ==> IsConnection(s[i]))
  {
    var s' := Apply(s, Rebind(charId, connId));
    if forall i :: 0 <= i < |s| && s[i].charId == charId ==> (IsConnection(s[i]) <==> connId != 0) {
      forall i | 0 <= i < |s| ensures OneKind(s'[i]) {
        assert OneKind(s[i]);
      }
      forall j, k | 0 <= j < k < |s'| ensures !SameKey(s'[j], s'[k]) {
        assert !SameKey(s[j], s[k]) && OneKind(s[j]) && OneKind(s[k]);
      }
    } else {
      var i :| 0 <= i < |s| && s[i].charId == charId && !(IsConnection(s[i]) <==> connId != 0);
      assert OneKind(s[i]) && !OneKind(s'[i]);
    }
  }

  lemma ClearInv(s: seq<Entry>, connId: uint64)
    requires Inv(s)
    ensures Inv(Apply(s, Clear(connId)))
  {
    var s' := Apply(s, Clear(connId));
    var i := Last(s, OfConnection(connId));
    hide Last, SameKey, OneKind, Without;
    if i >= 0 {
      forall j, k | 0 <= j < k < |s'| ensures !SameKey(s'[j], s'[k]) {
        assert !SameKey(s[if j < i then j else j + 1], s[if k < i then k else k + 1]);
      }
    }
  }

  /** In every run every entry is of exactly one kind, and position and destination keys with their map are distinct. */
  lemma {:induction false} EveryRun(s: seq<Entry>, ops: seq<Operation>)
    requires Inv(s) && forall i :: 0 <= i < |ops| ==> Proper(ops[i])
    ensures Inv(ApplyAll(s, ops))
    decreases |ops|
  {
    if ops == [] {
    } else {
      ApplyInv(s, ops[0]);
      hide Inv, Apply;
      EveryRun(Apply(s, ops[0]), ops[1..]);
    }
  }

  // ---------------------------------------------------------------- lookups that hit go on hitting

  /** A question about a place of the network, not about a connection. */
  predicate OfPlace(q: Query) {
    q.AtPosition? || q.AtDestination?
  }

  lemma FirstIs(s: seq<Entry>, q: Query, i: nat)
    requires i <= |s| && (i < |s| ==> Fits(q, s[i])) && forall j :: 0 <= j < i ==> !Fits(q, s[j])
    ensures First(s, q) == i
  {
  }

  lemma LastIs(s: seq<Entry>, q: Query, i: int)
    requires -1 <= i < |s| && (i >= 0 ==> Fits(q, s[i])) && forall j :: i < j < |s| ==> !Fits(q, s[j])
    ensures Last(s, q) == i
  {
  }

  /** The first entry of the operation's connection is the one that answers, and is given another map; or the last one
      is, is cut out, and what is behind it answers differently. */
  predicate Clobbers(s: seq<Entry>, op: Operation, q: Query) {
    match op
    case SetConnection(_, connId, mapName) =>
      First(s, OfConnection(connId)) == First(s, q) && Lookup(s, q) != Some(mapName)
    case Clear(connId) =>
      var hit := First(s, q);
      hit < |s| && Last(s, OfConnection(connId)) == hit && Lookup(s[hit + 1..], q) != Lookup(s, q)
    case _ => false
  }

  /** For any list and any operation: a place that is found goes on being found with the same map exactly when the
      operation does not clobber it. */
  lemma HitStays(s: seq<Entry>, op: Operation, q: Query)
    requires OfPlace(q) && Lookup(s, q).Some?
    ensures Lookup(Apply(s, op), q) == Lookup(s, q) <==> !Clobbers(s, op, q)
  {
    var hit := First(s, q);
    if op.Clear? {
      HitStaysCleared(s, op.connId, q);
    } else {
      hide First;
      FirstIs(Apply(s, op), q, hit);
    }
  }

  lemma HitStaysCleared(s: seq<Entry>, connId: uint64, q: Query)
    requires Lookup(s, q).Some?
    ensures Lookup(Apply(s, Clear(connId)), q) == Lookup(s, q) <==> !Clobbers(s, Clear(connId), q)
  {
    hide First, Last, Without, Fits, Lookup;
    LookupFirst(s, q);
    var hit, i := First(s, q), Last(s, OfConnection(connId));
    if i == hit {
      CutFirst(s, q);
    } else if i >= 0 {
      CutOther(s, i, q);
    }
  }

  lemma LookupFirst(s: seq<Entry>, q: Query)
    ensures Lookup(s, q).Some? <==> First(s, q) < |s|
  {
  }

  /** Cutting an entry other than the first that fits changes no answer. */
  lemma CutOther(s: seq<Entry>, i: nat, q: Query)
    requires i < |s| && First(s, q) != i
    ensures Lookup(Without(s, i), q) == Lookup(s, q)
  {
    var k := First(s, q);
    hide First, Fits, Without;
    FirstIs(Without(s, i), q, if k < i then k else k - 1);
  }

  /** Cutting the first that fits leaves the answer to what is behind it. */
  lemma CutFirst(s: seq<Entry>, q: Query)
    requires First(s, q) < |s|
    ensures Lookup(Without(s, First(s, q)), q) == Lookup(s[First(s, q) + 1..], q)
  {
    hide First, Fits, Lookup;
    var hit := First(s, q);
    LookupBehind(s[..hit], s[hit + 1..], q);
  }

  lemma {:induction false} LookupBehind(a: seq<Entry>, b: seq<Entry>, q: Query)
    requires forall i :: 0 <= i < |a| ==> !Fits(q, a[i])
    ensures Lookup(a + b, q) == Lookup(b, q)
  {
    if a == [] {
      assert a + b == b;
    } else {
      assert (a + b)[0] == a[0] && (a + b)[1..] == a[1..] + b;
      LookupBehind(a[1..], b, q);
    }
  }

  /** While the kinds are apart, no proper operation clobbers a place that has an address. */
  lemma ProperKeeps(s: seq<Entry>, op: Operation, q: Query)
    requires Inv(s) && Proper(op) && OfPlace(q) && q.ip != "" && Lookup(s, q).Some?
    ensures !Clobbers(s, op, q)
  {
    assert OneKind(s[First(s, q)]) && s[First(s, q)].connId == 0;
    hide First, Last;
  }

  predicate NeverClobbered(s: seq<Entry>, ops: seq<Operation>, q: Query)
    decreases |ops|
  {
    ops == [] || (!Clobbers(s, ops[0], q) && NeverClobbered(Apply(s, ops[0]), ops[1..], q))
  }

  /** All along a run the place is found with this map. */
  predicate AlwaysFound(s: seq<Entry>, ops: seq<Operation>, q: Query, mapName: string)
    decreases |ops|
  {
    Lookup(s, q) == Some(mapName) && (ops == [] || AlwaysFound(Apply(s, ops[0]), ops[1..], q, mapName))
  }

  /** From any list: the answer for a place stays what it is all along a run exactly when no operation clobbers it. */
  lemma {:induction false} StaysFound(s: seq<Entry>, ops: seq<Operation>, q: Query)
    requires OfPlace(q) && Lookup(s, q).Some?
    ensures AlwaysFound(s, ops, q, Lookup(s, q).value) <==> NeverClobbered(s, ops, q)
    decreases |ops|
  {
    if ops == [] {
    } else {
      HitStays(s, ops[0], q);
      hide Apply, Lookup, Clobbers;
      var next := Apply(s, ops[0]);
      if Lookup(next, q) == Lookup(s, q) {
        StaysFound(next, ops[1..], q);
      }
    }
  }

  /** Once a position or a destination is found, the same map is found for it for ever after. */
  lemma {:induction false} Sticky(s: seq<Entry>, ops: seq<Operation>, q: Query)
    requires Inv(s) && OfPlace(q) && q.ip != "" && forall i :: 0 <= i < |ops| ==> Proper(ops[i])
    requires Lookup(s, q).Some?
    ensures Lookup(ApplyAll(s, ops), q) == Lookup(s, q)
    decreases |ops|
  {
    if ops == [] {
    } else {
      HitStays(s, ops[0], q);
      ProperKeeps(s, ops[0], q);
      ApplyInv(s, ops[0]);
      hide Inv, Apply, Lookup, Clobbers;
      Sticky(Apply(s, ops[0]), ops[1..], q);
    }
  }

  // ---------------------------------------------------------------- what is found is what was set first

  /** The operation is for the place asked for. */
  predicate Sets(op: Operation, q: Query) {
    || (op.SetPosition? && q == AtPosition(op.sourceIP, op.x, op.y))
    || (op.SetDestination? && q == AtDestination(op.destIP, op.destPort))
  }

  /** What an appended entry is an answer to. */
  lemma AppendGet(s: seq<Entry>, e: Entry, q: Query)
    ensures Lookup(s + [e], q) == if Lookup(s, q).Some? || !Fits(q, e) then Lookup(s, q) else Some(e.mapName)
  {
    hide Fits, First;
    var i := First(s, q);
    FirstIs(s + [e], q, if i < |s| || Fits(q, e) then i else |s| + 1);
  }

  /** Setting a place, in any list: it is found with the new map unless it was found before, and then it keeps its old
      one. No connection and no other place that has an address gets another answer. */
  lemma SetPlaceGet(s: seq<Entry>, op: Operation, q: Query)
    requires op.SetPosition? || op.SetDestination?
    requires q.OfConnection? || OfPlace(q)
    ensures Sets(op, q) ==> Lookup(Apply(s, op), q) == if Lookup(s, q).Some? then Lookup(s, q) else Some(op.mapName)
    ensures !Sets(op, q) && (if q.OfConnection? then q.connId != 0 else q.ip != "") ==>
              Lookup(Apply(s, op), q) == Lookup(s, q)
  {
    hide First;
    var e := if op.SetPosition? then Entry(0, 0, op.mapName, op.x, op.y, op.sourceIP, "", 0)
             else Entry(0, 0, op.mapName, 0, 0, "", op.destIP, op.destPort);
    AppendGet(s, e, q);
    assert Sets(op, q) && Apply(s, op) == s ==> Lookup(s, q).Some?;
  }

  /** No other operation, on any list, makes a place with an address be found. */
  lemma MissStays(s: seq<Entry>, op: Operation, q: Query)
    requires OfPlace(q) && q.ip != "" && Lookup(s, q) == None && !Sets(op, q)
    ensures Lookup(Apply(s, op), q) == None
  {
    if op.SetPosition? || op.SetDestination? {
      SetPlaceGet(s, op, q);
    } else {
      hide First, Last, Without;
      var s' := Apply(s, op);
      forall i | 0 <= i < |s'| ensures !Fits(q, s'[i]) {
      }
      FirstIs(s', q, |s'|);
    }
  }

  /** The map that the first operation for the place gives it. */
  function FirstSet(ops: seq<Operation>, q: Query): Option<string> {
    if ops == [] then None
    else if Sets(ops[0], q) then Some(ops[0].mapName)
    else FirstSet(ops[1..], q)
  }

  /** Over a whole run of proper operations, a place with an address is found exactly with the map it was found with at
      first, or else with the map of the first operation that sets it; every other operation leaves it alone. */
  lemma {:induction false} PlaceRun(s: seq<Entry>, ops: seq<Operation>, q: Query)
    requires Inv(s) && OfPlace(q) && q.ip != "" && forall i :: 0 <= i < |ops| ==> Proper(ops[i])
    ensures Lookup(ApplyAll(s, ops), q) == if Lookup(s, q).Some? then Lookup(s, q) else FirstSet(ops, q)
    decreases |ops|
  {
    if ops == [] {
    } else if Lookup(s, q).Some? {
      Sticky(s, ops, q);
    } else {
      if Sets(ops[0], q) { SetPlaceGet(s, ops[0], q); } else { MissStays(s, ops[0], q); }
      ApplyInv(s, ops[0]);
      hide Inv, Apply, Lookup, Sets, OfPlace;
      PlaceRun(Apply(s, ops[0]), ops[1..], q);
    }
  }

  /** It can happen: number 0 finds a position entry and changes its map, or cuts it out. */
  lemma ZeroOverwrites(ip: string, x: uint16, y: uint16, mapName: string, other: string)
    requires ip != "" && other != mapName
    ensures var s, q := [Entry(0, 0, mapName, x, y, ip, "", 0)], AtPosition(ip, x, y);
            && Inv(s) && Lookup(s, q) == Some(mapName)
            && Lookup(Apply(s, SetConnection(0, 0, other)), q) == Some(other)
            && Lookup(Apply(s, Clear(0)), q) == None
  {
    var e, q := Entry(0, 0, mapName, x, y, ip, "", 0), AtPosition(ip, x, y);
    hide Apply, Lookup, Inv;
    SingleInv(e);
    SetSingle(e, 0, other);
    ClearSingle(e);
    LookupSingle(e, q);
    LookupSingle(e.(mapName := other), q);
  }

  /** So can a real number: a login with character 0 binds every place to the connection, and when that connection
      closes the answer is gone. */
  lemma CharacterZeroCuts(ip: string, x: uint16, y: uint16, mapName: string, connId: uint64)
    requires ip != "" && connId != 0
    ensures var s, q := Apply([], SetPosition(ip, mapName, x, y)), AtPosition(ip, x, y);
            var bound := Apply(s, Rebind(0, connId));
            && Inv(s) && Lookup(s, q) == Some(mapName)
            && !Inv(bound) && Lookup(bound, q) == Some(mapName)
            && Lookup(Apply(bound, Clear(connId)), q) == None
  {
    var e, q := Entry(0, 0, mapName, x, y, ip, "", 0), AtPosition(ip, x, y);
    assert Apply([], SetPosition(ip, mapName, x, y)) == [e];
    hide Apply, Lookup, Inv;
    SingleInv(e);
    RebindInv([e], 0, connId);
    assert !IsConnection([e][0]);
    RebindSingle(e, connId);
    ClearSingle(e.(connId := connId));
    LookupSingle(e, q);
    LookupSingle(e.(connId := connId), q);
  }

  lemma SetSingle(e: Entry, charId: uint32, mapName: string)
    ensures Apply([e], SetConnection(charId, e.connId, mapName)) == [e.(charId := charId, mapName := mapName)]
  {
    hide First;
    Single(e, OfConnection(e.connId));
  }

  lemma RebindSingle(e: Entry, connId: uint64)
    ensures Apply([e], Rebind(e.charId, connId)) == [e.(connId := connId)]
  {
  }

  lemma ClearSingle(e: Entry)
    ensures Apply([e], Clear(e.connId)) == []
  {
    hide Last;
    Single(e, OfConnection(e.connId));
  }

  lemma LookupSingle(e: Entry, q: Query)
    ensures Lookup([e], q) == (if Fits(q, e) then Some(e.mapName) else None) && Lookup([], q) == None
  {
    hide Fits, First;
    Single(e, q);
    FirstIs([], q, 0);
  }

  lemma SingleInv(e: Entry)
    requires OneKind(e)
    ensures Inv([e])
  {
    hide OneKind, SameKey;
  }

  lemma Single(e: Entry, q: Query)
    ensures First([e], q) == (if Fits(q, e) then 0 else 1) && Last([e], q) == if Fits(q, e) then 0 else -1
  {
    hide Fits;
  }

  // ---------------------------------------------------------------- a finite map from connections to maps

  function Map(s: seq<Entry>, id: uint64): Option<string> {
    Lookup(s, OfConnection(id))
  }

  /** No connection has two entries. */
  ghost predicate Unique(s: seq<Entry>) {
    forall i, j :: 0 <= i < j < |s| && s[i].connId != 0 ==> s[i].connId != s[j].connId
  }

  lemma MapNone(s: seq<Entry>, id: uint64)
    requires forall i :: 0 <= i < |s| ==> s[i].connId != id
    ensures Map(s, id) == None
  {
  }

  /** Setting is an update of the map, of any list at all. */
  lemma SetGet(s: seq<Entry>, charId: uint32, connId: uint64, mapName: string, other: uint64)
    ensures var s' := Apply(s, SetConnection(charId, connId, mapName));
            Map(s', other) == if other == connId then Some(mapName) else Map(s, other)
  {
    var s' := Apply(s, SetConnection(charId, connId, mapName));
    var i, k := First(s, OfConnection(connId)), First(s, OfConnection(other));
    hide First;
    if other == connId {
      FirstIs(s', OfConnection(connId), i);
    } else if k < |s| {
      FirstIs(s', OfConnection(other), k);
    } else {
      MapNone(s', other);
    }
  }

  /** Clearing removes exactly the connection when it has one entry; when it has more, the connection is still found. */
  lemma ClearGet(s: seq<Entry>, connId: uint64, other: uint64)
    ensures var s' := Apply(s, Clear(connId));
            && (other != connId ==> Map(s', other) == Map(s, other))
            && (Map(s', connId) == None <==>
                  forall i, j :: 0 <= i < j < |s| && s[i].connId == connId ==> s[j].connId != connId)
  {
    hide First, Last, Without;
    var last, first := Last(s, OfConnection(connId)), First(s, OfConnection(connId));
    if last >= 0 {
      if other != connId { CutOther(s, last, OfConnection(other)); }
      if first < last { CutOther(s, last, OfConnection(connId)); } else { CutOnly(s, last); }
    }
  }

  lemma CutOnly(s: seq<Entry>, i: nat)
    requires i < |s| && forall j :: 0 <= j < |s| && j != i ==> s[j].connId != s[i].connId
    ensures Map(Without(s, i), s[i].connId) == None
  {
    hide Without;
    MapNone(Without(s, i), s[i].connId);
  }

  /** At most one entry is rebound, and no other has the new connection. */
  ghost predicate Alone(s: seq<Entry>, charId: uint32, connId: uint64) {
    forall i, j :: 0 <= i < |s| && 0 <= j < |s| && i != j && s[i].charId == charId ==>
      s[j].charId != charId && s[j].connId != connId
  }

  /** In any list, rebinding keeps connections unique exactly when it is alone, or takes numbers away. */
  lemma RebindUnique(s: seq<Entry>, charId: uint32, connId: uint64)
    requires Unique(s)
    ensures Unique(Apply(s, Rebind(charId, connId))) <==> connId == 0 || Alone(s, charId, connId)
  {
    var s' := Apply(s, Rebind(charId, connId));
    if connId != 0 && !Alone(s, charId, connId) {
      var i, j :| 0 <= i < |s| && 0 <= j < |s| && i != j && s[i].charId == charId
                  && (s[j].charId == charId || s[j].connId == connId);
      assert s'[i].connId == connId && s'[j].connId == connId;
    }
  }

  /** Then it moves the key of the entry it finds and leaves the other keys alone. */
  lemma RebindMoves(s: seq<Entry>, charId: uint32, connId: uint64, i: nat, other: uint64)
    requires Unique(s) && connId != 0 && other != 0 && Alone(s, charId, connId)
    requires i < |s| && s[i].charId == charId
    ensures Map(Apply(s, Rebind(charId, connId)), other) ==
              if other == connId then Some(s[i].mapName) else if other == s[i].connId then None else Map(s, other)
  {
    var s' := Apply(s, Rebind(charId, connId));
    assert forall j :: 0 <= j < |s| && j != i ==> s'[j] == s[j];
    var k := First(s, OfConnection(other));
    hide First;
    if other == connId {
      FirstIs(s', OfConnection(connId), i);
    } else if other == s[i].connId || k == |s| {
      MapNone(s', other);
    } else {
      FirstIs(s', OfConnection(other), k);
    }
  }

  /** Setting and clearing keep connections unique. */
  lemma SetAndClearUnique(s: seq<Entry>, op: Operation)
    requires Unique(s) && !op.Rebind?
    ensures Unique(Apply(s, op))
  {
    hide First, Last, Without;
    if op.Clear? {
      var s' := Apply(s, op);
      forall i, j | 0 <= i < j < |s'| && s'[i].connId != 0 ensures s'[i].connId != s'[j].connId {
      }
    }
  }

  /** Every rebinding of the run that gives a number is alone when it happens. */
  ghost predicate AloneRun(s: seq<Entry>, ops: seq<Operation>)
    decreases |ops|
  {
    ops == [] ||
    ((ops[0].Rebind? ==> ops[0].connId == 0 || Alone(s, ops[0].charId, ops[0].connId))
     && AloneRun(Apply(s, ops[0]), ops[1..]))
  }

  ghost predicate AlwaysUnique(s: seq<Entry>, ops: seq<Operation>)
    decreases |ops|
  {
    Unique(s) && (ops == [] || AlwaysUnique(Apply(s, ops[0]), ops[1..]))
  }

  /** At no point of a run does a connection have two entries exactly when the rebindings are like that. */
  lemma {:induction false} UniqueRun(s: seq<Entry>, ops: seq<Operation>)
    requires Unique(s)
    ensures AlwaysUnique(s, ops) <==> AloneRun(s, ops)
    decreases |ops|
  {
    if ops == [] {
    } else {
      hide Apply, Unique, Alone;
      var op, next := ops[0], Apply(s, ops[0]);
      if op.Rebind? {
        RebindUnique(s, op.charId, op.connId);
      } else {
        SetAndClearUnique(s, op);
      }
      if Unique(next) {
        UniqueRun(next, ops[1..]);
      }
    }
  }

  // ---------------------------------------------------------------- the connections as a finite map of accounts

  datatype Account = Account(charId: uint32, mapName: string)

  /** What becomes of the accounts: a connection gets one, loses it, or hands it over when its character is rebound. */
  ghost function Update(accounts: map<uint64, Account>, op: Operation): map<uint64, Account> {
    match op
    case SetConnection(charId, connId, mapName) => accounts[connId := Account(charId, mapName)]
    case SetPosition(_, _, _, _) => accounts
    case SetDestination(_, _, _) => accounts
    case Rebind(charId, connId) =>
      if exists id <- accounts :: accounts[id].charId == charId then
        var id :| id in accounts && accounts[id].charId == charId;
        (accounts - {id})[connId := accounts[id]]
      else accounts
    case Clear(connId) => accounts - {connId}
  }

  ghost function UpdateAll(accounts: map<uint64, Account>, ops: seq<Operation>): map<uint64, Account>
    decreases |ops|
  {
    if ops == [] then accounts else UpdateAll(Update(accounts, ops[0]), ops[1..])
  }

  ghost predicate Represents(s: seq<Entry>, accounts: map<uint64, Account>) {
    && (forall i :: 0 <= i < |s| && s[i].connId != 0 ==>
          s[i].connId in accounts && accounts[s[i].connId] == Account(s[i].charId, s[i].mapName))
    && (forall id <- accounts :: id != 0 && exists i :: 0 <= i < |s| && s[i].connId == id)
  }

  lemma SetRepresents(s: seq<Entry>, accounts: map<uint64, Account>, op: Operation)
    requires Unique(s) && Represents(s, accounts) && Proper(op) && !op.Rebind? && !op.Clear?
    ensures Represents(Apply(s, op), Update(accounts, op))
  {
    hide First;
    var s', accounts' := Apply(s, op), Update(accounts, op);
    forall id <- accounts' ensures id != 0 && exists i :: 0 <= i < |s'| && s'[i].connId == id {
      if id in accounts {
        var i :| 0 <= i < |s| && s[i].connId == id;
        assert s'[i].connId == id;
      } else {
        assert s'[|s|].connId == id;
      }
    }
  }

  lemma ClearRepresents(s: seq<Entry>, accounts: map<uint64, Account>, connId: uint64)
    requires Unique(s) && Represents(s, accounts) && connId != 0
    ensures Represents(Apply(s, Clear(connId)), accounts - {connId})
  {
    hide Last, Without;
    var s', last := Apply(s, Clear(connId)), Last(s, OfConnection(connId));
    forall id <- accounts - {connId} ensures id != 0 && exists i :: 0 <= i < |s'| && s'[i].connId == id {
      var i :| 0 <= i < |s| && s[i].connId == id;
      assert s'[if last < 0 || i < last then i else i - 1].connId == id;
    }
  }

  /** The character's account is that of the one entry it has. */
  lemma OneHolder(s: seq<Entry>, accounts: map<uint64, Account>, charId: uint32, connId: uint64, i: nat)
    requires Represents(s, accounts) && Alone(s, charId, connId)
    requires i < |s| && s[i].charId == charId && s[i].connId != 0
    ensures forall id <- accounts :: accounts[id].charId == charId <==> id == s[i].connId
  {
    forall id <- accounts ensures accounts[id].charId == charId <==> id == s[i].connId {
      var j :| 0 <= j < |s| && s[j].connId == id;
    }
  }

  lemma CharacterBound(s: seq<Entry>, i: nat)
    requires Inv(s) && i < |s| && s[i].charId != 0
    ensures s[i].connId != 0
  {
    assert OneKind(s[i]);
  }

  lemma HandOver(s: seq<Entry>, accounts: map<uint64, Account>, charId: uint32, connId: uint64, i: nat)
    requires Represents(s, accounts) && Alone(s, charId, connId)
    requires i < |s| && s[i].charId == charId && s[i].connId != 0
    ensures s[i].connId in accounts
    ensures Update(accounts, Rebind(charId, connId)) == (accounts - {s[i].connId})[connId := accounts[s[i].connId]]
  {
    OneHolder(s, accounts, charId, connId, i);
    hide Alone;
  }

  /** One entry, which alone has its connection, gets a connection that no entry has. */
  lemma MoveRepresents(s: seq<Entry>, s': seq<Entry>, accounts: map<uint64, Account>, connId: uint64, i: nat)
    requires Represents(s, accounts) && connId != 0 && i < |s| && s[i].connId != 0
    requires forall j :: 0 <= j < |s| && j != i ==> s[j].connId != s[i].connId && s[j].connId != connId
    requires s' == s[i := s[i].(connId := connId)]
    ensures s[i].connId in accounts
    ensures Represents(s', (accounts - {s[i].connId})[connId := accounts[s[i].connId]])
  {
    var accounts' := (accounts - {s[i].connId})[connId := accounts[s[i].connId]];
    forall other <- accounts' ensures other != 0 && exists j :: 0 <= j < |s'| && s'[j].connId == other {
      if other == connId {
        assert s'[i].connId == connId;
      } else {
        var j :| 0 <= j < |s| && s[j].connId == other;
        assert s'[j].connId == other;
      }
    }
  }

  lemma RebindRepresents(s: seq<Entry>, accounts: map<uint64, Account>, charId: uint32, connId: uint64)
    requires Inv(s) && Unique(s) && Represents(s, accounts)
    requires charId != 0 && connId != 0 && Alone(s, charId, connId)
    ensures Represents(Apply(s, Rebind(charId, connId)), Update(accounts, Rebind(charId, connId)))
  {
    hide Inv, Update, Represents;
    var s' := Apply(s, Rebind(charId, connId));
    if exists i :: 0 <= i < |s| && s[i].charId == charId {
      var i :| 0 <= i < |s| && s[i].charId == charId;
      CharacterBound(s, i);
      HandOver(s, accounts, charId, connId, i);
      assert s' == s[i := s[i].(connId := connId)];
      hide Apply;
      MoveRepresents(s, s', accounts, connId, i);
    } else {
      assert s' == s;
      NobodyBound(s, accounts, charId, connId);
    }
  }

  lemma NobodyBound(s: seq<Entry>, accounts: map<uint64, Account>, charId: uint32, connId: uint64)
    requires Represents(s, accounts) && forall i :: 0 <= i < |s| ==> s[i].charId != charId
    ensures Update(accounts, Rebind(charId, connId)) == accounts
  {
    forall id <- accounts ensures accounts[id].charId != charId {
      var j :| 0 <= j < |s| && s[j].connId == id;
    }
  }

  /** The answer for a connection is the map of its account. */
  lemma MapOfAccount(s: seq<Entry>, accounts: map<uint64, Account>, id: uint64)
    requires Represents(s, accounts) && id != 0
    ensures Map(s, id) == if id in accounts then Some(accounts[id].mapName) else None
  {
    hide First;
    if id in accounts {
      var j :| 0 <= j < |s| && s[j].connId == id;
    }
  }

  /** In every run of proper operations whose rebindings are alone, connections are answered as the finite map says that
      the operations make of nothing, one after the other. */
  lemma {:induction false} AccountRun(s: seq<Entry>, accounts: map<uint64, Account>, ops: seq<Operation>, id: uint64)
    requires Inv(s) && Unique(s) && Represents(s, accounts) && id != 0
    requires AloneRun(s, ops) && forall i :: 0 <= i < |ops| ==> Proper(ops[i])
    ensures var after := UpdateAll(accounts, ops);
            Map(ApplyAll(s, ops), id) == if id in after then Some(after[id].mapName) else None
    decreases |ops|
  {
    if ops == [] {
      MapOfAccount(s, accounts, id);
    } else {
      var op := ops[0];
      assert Proper(op);
      NextAccounts(s, accounts, op);
      hide Inv, Unique, Represents, Apply, Update, Alone, Map, Proper;
      AccountRun(Apply(s, op), Update(accounts, op), ops[1..], id);
    }
  }

  lemma NextAccounts(s: seq<Entry>, accounts: map<uint64, Account>, op: Operation)
    requires Inv(s) && Unique(s) && Represents(s, accounts) && Proper(op)
    requires op.Rebind? ==> op.connId == 0 || Alone(s, op.charId, op.connId)
    ensures var s' := Apply(s, op); Inv(s') && Unique(s') && Represents(s', Update(accounts, op))
  {
    hide Inv, Unique, Represents, Apply, Alone;
    ApplyInv(s, op);
    if op.Rebind? {
      RebindUnique(s, op.charId, op.connId);
      RebindRepresents(s, accounts, op.charId, op.connId);
    } else {
      SetAndClearUnique(s, op);
      if op.Clear? { ClearRepresents(s, accounts, op.connId); } else { SetRepresents(s, accounts, op); }
    }
  }

  // ---------------------------------------------------------------- the code

  /** pendingMap, and its operations under the mutex. */
  class PendingMap {
    var entries: seq<Entry>

    constructor ()
      ensures entries == []
    {
      entries := [];
    }

    method SetConnectionMapChar(charId: uint32, connID: uint64, mapName: string)
      modifies this
      ensures entries == Apply(old(entries), SetConnection(charId, connID, mapName))
      ensures Map(entries, connID) == Some(mapName)
    {
      SetGet(entries, charId, connID, mapName, connID);
      var i := 0;
      while i < |entries|
        invariant 0 <= i <= |entries| && entries == old(entries)
        invariant forall j :: 0 <= j < i ==> entries[j].connId != connID
      {
        if entries[i].connId == connID {
          FirstIs(entries, OfConnection(connID), i);
          entries := entries[i := entries[i].(charId := charId, mapName := mapName)];
          return;
        }
        i := i + 1;
      }
      entries := entries + [Entry(charId, connID, mapName, 0, 0, "", "", 0)];
    }

    method GetConnectionMap(connID: uint64) returns (mapName: Option<string>)
      ensures mapName == Map(entries, connID)
    {
      for i := 0 to |entries|
        invariant forall j :: 0 <= j < i ==> entries[j].connId != connID
      {
        if entries[i].connId == connID {
          FirstIs(entries, OfConnection(connID), i);
          return Some(entries[i].mapName);
        }
      }
      return None;
    }

    method SetPendingMapChange(sourceIP: string, mapName: string, x: uint16, y: uint16)
      modifies this
      ensures entries == Apply(old(entries), SetPosition(sourceIP, mapName, x, y))
      ensures var q := AtPosition(sourceIP, x, y);
              Lookup(entries, q) == if Lookup(old(entries), q).Some? then Lookup(old(entries), q) else Some(mapName)
    {
      SetPlaceGet(entries, SetPosition(sourceIP, mapName, x, y), AtPosition(sourceIP, x, y));
      for i := 0 to |entries|
        invariant entries == old(entries)
        invariant forall j :: 0 <= j < i ==> !Fits(NamedPosition(sourceIP, x, y, mapName), entries[j])
      {
        if entries[i].sourceIP == sourceIP && entries[i].mapName == mapName && entries[i].x == x && entries[i].y == y {
          FirstIs(entries, NamedPosition(sourceIP, x, y, mapName), i);
          return;
        }
      }
      entries := entries + [Entry(0, 0, mapName, x, y, sourceIP, "", 0)];
    }

    method GetPendingMapChange(sourceIP: string, x: uint16, y: uint16) returns (mapName: Option<string>)
      ensures mapName == Lookup(entries, AtPosition(sourceIP, x, y))
    {
      for i := 0 to |entries|
        invariant forall j :: 0 <= j < i ==> !Fits(AtPosition(sourceIP, x, y), entries[j])
      {
        if entries[i].sourceIP == sourceIP && entries[i].x == x && entries[i].y == y {
          FirstIs(entries, AtPosition(sourceIP, x, y), i);
          return Some(entries[i].mapName);
        }
      }
      return None;
    }

    method SetPendingMapByDestination(destIP: string, destPort: int, mapName: string)
      modifies this
      ensures entries == Apply(old(entries), SetDestination(destIP, destPort, mapName))
      ensures var q := AtDestination(destIP, destPort);
              Lookup(entries, q) == if Lookup(old(entries), q).Some? then Lookup(old(entries), q) else Some(mapName)
    {
      SetPlaceGet(entries, SetDestination(destIP, destPort, mapName), AtDestination(destIP, destPort));
      for i := 0 to |entries|
        invariant entries == old(entries)
        invariant forall j :: 0 <= j < i ==> !Fits(NamedDestination(destIP, destPort, mapName), entries[j])
      {
        if entries[i].destIP == destIP && entries[i].destPort == destPort && entries[i].mapName == mapName {
          FirstIs(entries, NamedDestination(destIP, destPort, mapName), i);
          return;
        }
      }
      entries := entries + [Entry(0, 0, mapName, 0, 0, "", destIP, destPort)];
    }

    method GetPendingMapByDestination(destIP: string, destPort: int) returns (mapName: Option<string>)
      ensures mapName == Lookup(entries, AtDestination(destIP, destPort))
    {
      for i := 0 to |entries|
        invariant forall j :: 0 <= j < i ==> !Fits(AtDestination(destIP, destPort), entries[j])
      {
        if entries[i].destIP == destIP && entries[i].destPort == destPort {
          FirstIs(entries, AtDestination(destIP, destPort), i);
          return Some(entries[i].mapName);
        }
      }
      return None;
    }

    method SetPendingMapByCharId(charId: uint32, connID: uint64)
      modifies this
      ensures entries == Apply(old(entries), Rebind(charId, connID))
      ensures |entries| == |old(entries)| && forall i :: 0 <= i < |entries| ==>
                entries[i] == if old(entries)[i].charId == charId then old(entries)[i].(connId := connID)
                              else old(entries)[i]
    {
      for i := 0 to |entries|
        invariant |entries| == |old(entries)|
        invariant forall j :: 0 <= j < |entries| ==>
                    entries[j] == if j < i then Apply(old(entries), Rebind(charId, connID))[j] else old(entries)[j]
      {
        if entries[i].charId == charId {
          entries := entries[i := entries[i].(connId := connID)];
        }
      }
    }

    method ClearConnectionMap(connID: uint64)
      modifies this
      ensures entries == Apply(old(entries), Clear(connID))
    {
      var index := -1;
      for i := 0 to |entries|
        invariant entries == old(entries) && -1 <= index < i
        invariant index >= 0 ==> entries[index].connId == connID
        invariant forall j :: index < j < i ==> entries[j].connId != connID
      {
        if entries[i].connId == connID {
          index := i;
        }
      }
      LastIs(entries, OfConnection(connID), index);
      hide Last;
      if index >= 0 {
        entries := entries[..index] + entries[index + 1..];
      }
    }
  }
}
