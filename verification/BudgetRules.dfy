/** Exactly which documents the two size pre-checks let pass. */
module BudgetRules {
  import opened CanonicalJson
  import opened Budget

  // ---------------------------------------------------------------- the rules

  /** Separators between some parts. */
  function Commas(n: nat): nat {
    if n > 0 then n - 1 else 0
  }

  /**
    What a document costs: in a session its quotes, brackets, commas and colons and one for every character and every
    other scalar; at admission one for every value, key, character, item and entry.
   */
  function Cost(session: bool, v: Json): nat {
    match v
    case Null => 1
    case Bool(_) => 1
    case Int(_) => 1
    case Str(s) => KeyCost(session, s)
    case Arr(items) => (if session then 2 + Commas(|items|) else 1 + |items|) + ItemsCost(session, items)
    case Obj(members) => (if session then 2 + Commas(|members|) + |members| else 1 + |members|) + MembersCost(session, members)
  }

  function KeyCost(session: bool, s: string): nat {
    Characters(s) + if session then 2 else 1
  }

  function ItemsCost(session: bool, items: seq<Json>): nat {
    if items == [] then 0 else ItemsCost(session, items[..|items| - 1]) + Cost(session, items[|items| - 1])
  }

  function MembersCost(session: bool, members: seq<Member>): nat {
    if members == [] then 0
    else
      var last := members[|members| - 1];
      MembersCost(session, members[..|members| - 1]) + KeyCost(session, last.key) + Cost(session, last.value)
  }

  /** Nothing deeper than `room` levels, no unsafe integer, and in a session no collection of more than 4096. */
  predicate Proper(session: bool, v: Json, room: int) {
    room >= 0 &&
    match v
    case Int(n) => -9007199254740991 <= n <= 9007199254740991
    case Arr(items) => (session ==> |items| <= 4096) && forall i :: 0 <= i < |items| ==> Proper(session, items[i], room - 1)
    case Obj(members) =>
      && (session ==> |members| <= 4096) && (members != [] ==> room >= 1)
      && forall i :: 0 <= i < |members| ==> Proper(session, members[i].value, room - 1)
    case _ => true
  }

  // ---------------------------------------------------------------- a walk does what the rules say

  predicate Exact(walk: Walk, left: int, proper: bool, cost: nat) {
    (walk.Passed? <==> proper && cost <= left) && (walk.Passed? ==> walk.left == left - cost)
  }

  lemma {:induction false} ScalarExact(rules: Rules, v: Json, depth: nat, left: int)
    requires depth <= rules.depth + 1 && left <= rules.maximum && !v.Arr? && !v.Obj?
    ensures Exact(Visit(rules, NodeOf, NodeOf(v), depth, left), left, Proper(rules.session, v, rules.depth - depth), Cost(rules.session, v))
  {
  }

  lemma {:induction false} KeyExact(rules: Rules, key: string, depth: nat, left: int)
    requires depth <= rules.depth + 1 && left <= rules.maximum
    ensures Exact(Visit(rules, NodeOf, Text(Characters(key)), depth, left), left, depth <= rules.depth, KeyCost(rules.session, key))
  {
  }

  lemma {:induction false} OneMoreExact(rules: Rules, children: seq<Child<Json>>, child: Child<Json>, depth: nat, left: int,
                                        proper: bool, cost: nat, also: bool, more: nat)
    requires depth <= rules.depth + 1 && left <= rules.maximum
    requires Exact(VisitAll(rules, NodeOf, children, depth, left), left, proper, cost)
    requires var so := VisitAll(rules, NodeOf, children, depth, left);
             so.Passed? ==> Exact(VisitChild(rules, NodeOf, child, depth, so.left), so.left, also, more)
    ensures Exact(VisitAll(rules, NodeOf, children + [child], depth, left), left, proper && also, cost + more)
  {
    assert (children + [child])[..|children|] == children;
  }

  /** All items of a list, or all values of some members, below one more level. */
  predicate ItemsProper(session: bool, items: seq<Json>, room: int) {
    forall i :: 0 <= i < |items| ==> Proper(session, items[i], room)
  }

  predicate MembersProper(session: bool, members: seq<Member>, room: int) {
    (members != [] ==> room >= 0) && forall i :: 0 <= i < |members| ==> Proper(session, members[i].value, room)
  }

  lemma {:induction false} ItemsExact(rules: Rules, items: seq<Json>, depth: nat, left: int)
    requires depth <= rules.depth + 1 && 0 <= left <= rules.maximum
    ensures Exact(VisitAll(rules, NodeOf, NodeOf(Arr(items)).children, depth, left), left,
                  ItemsProper(rules.session, items, rules.depth - depth), ItemsCost(rules.session, items))
    decreases items, 0, |items|
  {
    if items != [] {
      var before, last := items[..|items| - 1], items[|items| - 1];
      ItemsExact(rules, before, depth, left);
      var all := NodeOf(Arr(items)).children;
      assert all == NodeOf(Arr(before)).children + [Item(last)];
      var so := VisitAll(rules, NodeOf, NodeOf(Arr(before)).children, depth, left);
      if so.Passed? {
        VisitExact(rules, last, depth, so.left);
      }
      OneMoreExact(rules, NodeOf(Arr(before)).children, Item(last), depth, left,
                   ItemsProper(rules.session, before, rules.depth - depth), ItemsCost(rules.session, before),
                   Proper(rules.session, last, rules.depth - depth), Cost(rules.session, last));
      MoreItems(rules.session, before, last, rules.depth - depth);
      assert items == before + [last];
    }
  }

  lemma {:induction false} MoreItems(session: bool, before: seq<Json>, last: Json, room: int)
    ensures ItemsProper(session, before + [last], room) <==> ItemsProper(session, before, room) && Proper(session, last, room)
  {
    var all := before + [last];
    assert all[|before|] == last && forall i :: 0 <= i < |before| ==> all[i] == before[i];
  }

  lemma {:induction false} MoreMembers(session: bool, before: seq<Member>, last: Member, room: int)
    ensures MembersProper(session, before + [last], room) <==> (MembersProper(session, before, room) && room >= 0) && Proper(session, last.value, room)
  {
    var all := before + [last];
    assert all[|before|] == last && forall i :: 0 <= i < |before| ==> all[i] == before[i];
  }

  lemma {:induction false} MembersExact(rules: Rules, members: seq<Member>, depth: nat, left: int)
    requires depth <= rules.depth + 1 && 0 <= left <= rules.maximum
    ensures Exact(VisitAll(rules, NodeOf, Pieces(members), depth, left), left,
                  MembersProper(rules.session, members, rules.depth - depth), MembersCost(rules.session, members))
    decreases members, 0, |members|
  {
    if members != [] {
      var before, last, room := members[..|members| - 1], members[|members| - 1], rules.depth - depth;
      var key, item: Child<Json> := Key(Characters(last.key)), Item(last.value);
      MembersExact(rules, before, depth, left);
      var so := VisitAll(rules, NodeOf, Pieces(before), depth, left);
      if so.Passed? {
        KeyExact(rules, last.key, depth, so.left);
      }
      OneMoreExact(rules, Pieces(before), key, depth, left, MembersProper(rules.session, before, room), MembersCost(rules.session, before),
                   room >= 0, KeyCost(rules.session, last.key));
      var keyed := Pieces(before) + [key];
      var more := VisitAll(rules, NodeOf, keyed, depth, left);
      if more.Passed? {
        VisitExact(rules, last.value, depth, more.left);
      }
      OneMoreExact(rules, keyed, item, depth, left, MembersProper(rules.session, before, room) && room >= 0,
                   MembersCost(rules.session, before) + KeyCost(rules.session, last.key),
                   Proper(rules.session, last.value, room), Cost(rules.session, last.value));
      MoreMembers(rules.session, before, last, room);
      assert Pieces(members) == keyed + [item] && members == before + [last];
    }
  }

  lemma {:induction false} VisitExact(rules: Rules, v: Json, depth: nat, left: int)
    requires depth <= rules.depth + 1 && left <= rules.maximum
    ensures Exact(Visit(rules, NodeOf, NodeOf(v), depth, left), left, Proper(rules.session, v, rules.depth - depth), Cost(rules.session, v))
    decreases v, 1, 0
  {
    if depth <= rules.depth {
      var entered := Enter(rules, NodeOf(v), depth, left);
      match v
      case Arr(items) =>
        if entered.Passed? {
          ItemsExact(rules, items, depth + 1, entered.left);
        }
        ArrExact(rules, items, depth, left);
      case Obj(members) =>
        if entered.Passed? {
          MembersExact(rules, members, depth + 1, entered.left);
        }
        ObjExact(rules, members, depth, left);
      case _ => ScalarExact(rules, v, depth, left);
    }
  }

  lemma {:induction false} ArrExact(rules: Rules, items: seq<Json>, depth: nat, left: int)
    requires depth <= rules.depth && left <= rules.maximum
    requires var entered := Enter(rules, NodeOf(Arr(items)), depth, left);
             entered.Passed? ==>
               Exact(VisitAll(rules, NodeOf, NodeOf(Arr(items)).children, depth + 1, entered.left), entered.left,
                     ItemsProper(rules.session, items, rules.depth - depth - 1), ItemsCost(rules.session, items))
    ensures Exact(Visit(rules, NodeOf, NodeOf(Arr(items)), depth, left), left,
                  Proper(rules.session, Arr(items), rules.depth - depth), Cost(rules.session, Arr(items)))
  {
  }

  lemma {:induction false} ObjExact(rules: Rules, members: seq<Member>, depth: nat, left: int)
    requires depth <= rules.depth && left <= rules.maximum
    requires var entered := Enter(rules, NodeOf(Obj(members)), depth, left);
             entered.Passed? ==>
               Exact(VisitAll(rules, NodeOf, Pieces(members), depth + 1, entered.left), entered.left,
                     MembersProper(rules.session, members, rules.depth - depth - 1), MembersCost(rules.session, members))
    ensures Exact(Visit(rules, NodeOf, NodeOf(Obj(members)), depth, left), left,
                  Proper(rules.session, Obj(members), rules.depth - depth), Cost(rules.session, Obj(members)))
  {
    PiecesSize(members);
  }

  // ---------------------------------------------------------------- the two pre-checks

  /** A session document passes if and only if it has at most eight levels, safe integers and small collections, and can be paid for. */
  lemma {:induction false} SessionExactly(maximum: nat, v: Json)
    ensures WithinBudget(SessionRules(maximum), v) <==> Proper(true, v, 8) && Cost(true, v) <= maximum
  {
    VisitExact(SessionRules(maximum), v, 0, maximum);
  }

  /** A document at admission passes if and only if it has at most sixteen levels and safe integers, and can be paid for. */
  lemma {:induction false} AdmissionExactly(maximum: nat, v: Json)
    ensures WithinBudget(AdmissionRules(maximum), v) <==> Proper(false, v, 16) && Cost(false, v) <= maximum
  {
    VisitExact(AdmissionRules(maximum), v, 0, maximum);
  }
}
