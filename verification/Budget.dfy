/**
  The two size pre-checks that run before a value is encoded (live_session.py and
  live_mutation_admission.py, both named `_bounded`).  They walk Python objects, which may share and
  even contain themselves, so the walk is defined over any `view` of references as nodes.
 */
module Budget {
  import opened Prelude
  import opened CanonicalJson
  import opened Digits

  const MAX_COLLECTION := 4096

  datatype Child<T> = Key(length: nat) | ForeignKey | Item(ref: T)

  /** An object as the walk sees it; the children of a dict are its keys and values in turn. */
  datatype Node<T> = Scalar | Number(n: int) | Text(length: nat) | Container(dict: bool, children: seq<Child<T>>) | Foreign

  datatype Rules = Rules(session: bool, maximum: nat, depth: nat)

  /** How a walk ended: the budget left, or whether the budget was the reason; and the nodes it looked at. */
  datatype Walk = Passed(left: int, visits: nat) | Stopped(size: bool, visits: nat)

  function SessionRules(maximum: nat): Rules {
    Rules(true, maximum, 8)
  }

  function AdmissionRules(maximum: nat): Rules {
    Rules(false, maximum, 16)
  }

  function Size<T>(node: Node<T>): nat
    requires node.Container?
  {
    if node.dict then |node.children| / 2 else |node.children|
  }

  function Charge<T>(rules: Rules, node: Node<T>): nat {
    match node
    case Text(n) => if rules.session then n + 2 else n + 1
    case Container(dict, _) =>
      var n := Size(node);
      if !rules.session then n + 1
      else 2 + (if n > 0 then n - 1 else 0) + (if dict then n else 0)
    case _ => 1
  }

  predicate KindRefused<T>(rules: Rules, node: Node<T>, depth: nat) {
    || depth > rules.depth || node.Foreign?
    || (rules.session && node.Container? && Size(node) > MAX_COLLECTION)
  }

  predicate Unsafe<T>(node: Node<T>) {
    node.Number? && !(-MAX_SAFE <= node.n <= MAX_SAFE)
  }

  function Plus(before: nat, walk: Walk): Walk {
    walk.(visits := before + walk.visits)
  }

  /** What happens at a node before its children are looked at. */
  function Enter<T>(rules: Rules, node: Node<T>, depth: nat, left: int): Walk {
    if KindRefused(rules, node, depth) || (rules.session && Unsafe(node)) then Stopped(false, 1)
    else if left < Charge(rules, node) || (rules.session && node.Text? && node.length > rules.maximum) then Stopped(true, 1)
    else if Unsafe(node) then Stopped(false, 1)
    else Passed(left - Charge(rules, node), 1)
  }

  function Visit<T>(rules: Rules, view: T -> Node<T>, node: Node<T>, depth: nat, left: int): Walk
    requires depth <= rules.depth + 1
    decreases rules.depth + 1 - depth, 0
  {
    var entered := Enter(rules, node, depth, left);
    if entered.Stopped? || !node.Container? then entered
    else Plus(1, VisitAll(rules, view, node.children, depth + 1, entered.left))
  }

  function VisitChild<T>(rules: Rules, view: T -> Node<T>, child: Child<T>, depth: nat, left: int): Walk
    requires depth <= rules.depth + 1
    decreases rules.depth + 1 - depth, 1
  {
    match child
    case ForeignKey => Stopped(false, 0)
    case Key(n) => Visit(rules, view, Text(n), depth, left)
    case Item(x) => Visit(rules, view, view(x), depth, left)
  }

  function VisitAll<T>(rules: Rules, view: T -> Node<T>, children: seq<Child<T>>, depth: nat, left: int): Walk
    requires depth <= rules.depth + 1
    decreases rules.depth + 1 - depth, 2 + |children|
  {
    if children == [] then Passed(left, 0)
    else
      match VisitAll(rules, view, children[..|children| - 1], depth, left)
      case Stopped(size, visits) => Stopped(size, visits)
      case Passed(rest, visits) => Plus(visits, VisitChild(rules, view, children[|children| - 1], depth, rest))
  }

  lemma {:induction false} StoppedPrefix<T>(rules: Rules, view: T -> Node<T>, children: seq<Child<T>>, depth: nat, left: int, k: nat)
    requires depth <= rules.depth + 1 && k <= |children|
    requires VisitAll(rules, view, children[..k], depth, left).Stopped?
    ensures VisitAll(rules, view, children, depth, left) == VisitAll(rules, view, children[..k], depth, left)
  {
    if k == |children| {
      assert children[..k] == children;
    } else {
      var before := children[..|children| - 1];
      assert before[..k] == children[..k];
      StoppedPrefix(rules, view, before, depth, left, k);
    }
  }

  lemma {:induction false} NextChild<T>(rules: Rules, view: T -> Node<T>, children: seq<Child<T>>, depth: nat, left: int, i: nat)
    requires depth <= rules.depth + 1 && i < |children|
    requires VisitAll(rules, view, children[..i], depth, left).Passed?
    ensures VisitAll(rules, view, children[..i + 1], depth, left) ==
            var so := VisitAll(rules, view, children[..i], depth, left);
            Plus(so.visits, VisitChild(rules, view, children[i], depth, so.left))
  {
    assert children[..i + 1][..i] == children[..i];
  }

  // ---------------------------------------------------------------- the two loops

  /** live_session: the remaining budget is returned and reassigned child by child. */
  method SessionBounded<T>(rules: Rules, view: T -> Node<T>, node: Node<T>, depth: nat, left: int) returns (r: Walk)
    requires depth <= rules.depth + 1
    ensures r == Visit(rules, view, node, depth, left)
    decreases rules.depth + 1 - depth
  {
    var entered := Enter(rules, node, depth, left);
    if entered.Stopped? || !node.Container? {
      return entered;
    }
    var remaining, i := entered.left, 0;
    var visits: nat := 0;
    while i < |node.children|
      invariant 0 <= i <= |node.children|
      invariant VisitAll(rules, view, node.children[..i], depth + 1, entered.left) == Passed(remaining, visits)
    {
      NextChild(rules, view, node.children, depth + 1, entered.left, i);
      var step: Walk;
      match node.children[i] {
        case ForeignKey => step := Stopped(false, 0);
        case Key(n) => step := SessionBounded(rules, view, Text(n), depth + 1, remaining);
        case Item(x) => step := SessionBounded(rules, view, view(x), depth + 1, remaining);
      }
      if step.Stopped? {
        StoppedPrefix(rules, view, node.children, depth + 1, entered.left, i + 1);
        return Plus(1, Plus(visits, step));
      }
      remaining, visits, i := step.left, visits + step.visits, i + 1;
    }
    assert node.children[..i] == node.children;
    r := Plus(1, Passed(remaining, visits));
  }

  /** live_mutation_admission: one shared cell holds the budget for the whole recursion. */
  class Cell {
    var left: int

    constructor (maximum: nat)
      ensures left == maximum
    {
      left := maximum;
    }
  }

  method AdmissionBounded<T>(rules: Rules, view: T -> Node<T>, node: Node<T>, depth: nat, budget: Cell)
    returns (ok: bool, ghost walk: Walk)
    requires depth <= rules.depth + 1
    modifies budget
    ensures walk == Visit(rules, view, node, depth, old(budget.left))
    ensures ok <==> walk.Passed?
    ensures ok ==> budget.left == walk.left
    decreases rules.depth + 1 - depth
  {
    ghost var before := budget.left;
    ghost var entered := Enter(rules, node, depth, before);
    if KindRefused(rules, node, depth) || (rules.session && Unsafe(node)) {
      return false, entered;
    }
    budget.left := budget.left - Charge(rules, node);
    if budget.left < 0 || (rules.session && node.Text? && node.length > rules.maximum) || Unsafe(node) {
      return false, entered;
    }
    if !node.Container? {
      return true, entered;
    }
    ghost var visits: nat := 0;
    var i := 0;
    while i < |node.children|
      invariant 0 <= i <= |node.children|
      invariant VisitAll(rules, view, node.children[..i], depth + 1, entered.left) == Passed(budget.left, visits)
    {
      NextChild(rules, view, node.children, depth + 1, entered.left, i);
      var good := false;
      ghost var step: Walk := Stopped(false, 0);
      match node.children[i] {
        case ForeignKey =>
        case Key(n) => good, step := AdmissionBounded(rules, view, Text(n), depth + 1, budget);
        case Item(x) => good, step := AdmissionBounded(rules, view, view(x), depth + 1, budget);
      }
      if !good {
        StoppedPrefix(rules, view, node.children, depth + 1, entered.left, i + 1);
        return false, Plus(1, Plus(visits, step));
      }
      visits, i := visits + step.visits, i + 1;
    }
    assert node.children[..i] == node.children;
    return true, Plus(1, Passed(budget.left, visits));
  }

  // ---------------------------------------------------------------- bounded work, whatever the sharing

  predicate Paid(walk: Walk, left: int) {
    match walk
    case Passed(rest, visits) => 0 <= rest && visits <= left - rest
    case Stopped(_, visits) => visits <= left + 1
  }

  lemma {:induction false} EnterPaid<T>(rules: Rules, node: Node<T>, depth: nat, left: int)
    requires 0 <= left
    ensures Paid(Enter(rules, node, depth, left), left)
  {
  }

  /** Every visited node was paid for, except the one that ended the walk. */
  lemma {:induction false} VisitPaid<T>(rules: Rules, view: T -> Node<T>, node: Node<T>, depth: nat, left: int)
    requires depth <= rules.depth + 1 && 0 <= left
    ensures Paid(Visit(rules, view, node, depth, left), left)
    decreases rules.depth + 1 - depth, 0
  {
    EnterPaid(rules, node, depth, left);
    var entered := Enter(rules, node, depth, left);
    if entered.Passed? && node.Container? {
      VisitAllPaid(rules, view, node.children, depth + 1, entered.left);
    }
  }

  lemma {:induction false} VisitAllPaid<T>(rules: Rules, view: T -> Node<T>, children: seq<Child<T>>, depth: nat, left: int)
    requires depth <= rules.depth + 1 && 0 <= left
    ensures Paid(VisitAll(rules, view, children, depth, left), left)
    decreases rules.depth + 1 - depth, 2 + |children|
  {
    if children != [] {
      var before := children[..|children| - 1];
      VisitAllPaid(rules, view, before, depth, left);
      var so := VisitAll(rules, view, before, depth, left);
      if so.Passed? {
        match children[|children| - 1]
        case ForeignKey =>
        case Key(n) => VisitPaid(rules, view, Text(n), depth, so.left);
        case Item(x) => VisitPaid(rules, view, view(x), depth, so.left);
      }
    }
  }

  /** A walk looks at no more than maximum + 1 nodes, for any object graph: shared, exponential or cyclic. */
  lemma {:induction false} BoundedVisits<T>(rules: Rules, view: T -> Node<T>, node: Node<T>)
    ensures Visit(rules, view, node, 0, rules.maximum).visits <= rules.maximum + 1
  {
    VisitPaid(rules, view, node, 0, rules.maximum);
  }

  // ---------------------------------------------------------------- documents

  /** Python's len of a text given as UTF-8: the bytes that start a character. */
  function Characters(s: string): (n: nat)
    ensures n <= |s|
  {
    if s == "" then 0 else (if 128 <= s[0] as int < 192 then 0 else 1) + Characters(s[1..])
  }

  function Pieces(members: seq<Member>): seq<Child<Json>> {
    if members == [] then []
    else Pieces(members[..|members| - 1]) + [Key(Characters(members[|members| - 1].key)), Item(members[|members| - 1].value)]
  }

  function NodeOf(v: Json): Node<Json> {
    match v
    case Null => Scalar
    case Bool(_) => Scalar
    case Int(n) => Number(n)
    case Str(s) => Text(Characters(s))
    case Arr(items) => Container(false, seq(|items|, i requires 0 <= i < |items| => Item(items[i])))
    case Obj(members) => Container(true, Pieces(members))
  }

  /** The walk of a whole document against a budget. */
  function WalkOf(rules: Rules, v: Json): Walk {
    Visit(rules, NodeOf, NodeOf(v), 0, rules.maximum)
  }

  predicate WithinBudget(rules: Rules, v: Json) {
    WalkOf(rules, v).Passed?
  }

  // ---------------------------------------------------------------- lengths of canonical text

  lemma {:induction false} EscapeLonger(s: string)
    ensures |s| <= |Escape(s)|
  {
    if s != "" {
      EscapeLonger(s[1..]);
    }
  }

  /** The printed items, without separators. */
  function ItemsLength(items: seq<Json>): nat {
    if items == [] then 0 else ItemsLength(items[..|items| - 1]) + |Encode(items[|items| - 1])|
  }

  function MembersLength(members: seq<Member>): nat {
    if members == [] then 0
    else MembersLength(members[..|members| - 1]) + |Quote(members[|members| - 1].key)| + |Encode(members[|members| - 1].value)|
  }

  lemma {:induction false} ItemsLengthPrepend(v: Json, items: seq<Json>)
    ensures ItemsLength([v] + items) == |Encode(v)| + ItemsLength(items)
  {
    var all := [v] + items;
    if items != [] {
      assert all[..|all| - 1] == [v] + items[..|items| - 1];
      ItemsLengthPrepend(v, items[..|items| - 1]);
    } else {
      assert all[..0] == [] && all == [v];
    }
  }

  lemma {:induction false} EncodeItemsLength(items: seq<Json>)
    ensures |EncodeItems(items)| == ItemsLength(items) + if items == [] then 0 else |items| - 1
  {
    if items != [] {
      EncodeItemsLength(items[1..]);
      ItemsLengthPrepend(items[0], items[1..]);
      assert items == [items[0]] + items[1..];
    }
  }

  lemma {:induction false} MembersLengthPrepend(m: Member, members: seq<Member>)
    ensures MembersLength([m] + members) == |Quote(m.key)| + |Encode(m.value)| + MembersLength(members)
  {
    var all := [m] + members;
    if members != [] {
      assert all[..|all| - 1] == [m] + members[..|members| - 1];
      MembersLengthPrepend(m, members[..|members| - 1]);
    } else {
      assert all[..0] == [] && all == [m];
    }
  }

  lemma {:induction false} EncodeMembersLength(members: seq<Member>)
    ensures |EncodeMembers(members)| == MembersLength(members) + |members| + if members == [] then 0 else |members| - 1
  {
    if members != [] {
      EncodeMembersLength(members[1..]);
      MembersLengthPrepend(members[0], members[1..]);
      assert members == [members[0]] + members[1..];
    }
  }

  // ---------------------------------------------------------------- the charge is a lower bound

  /** A walk over text of a given length, within a budget that covers it, is not stopped by its size. */
  predicate Covered(walk: Walk, left: int, length: nat) {
    match walk
    case Passed(rest, _) => rest <= left && left - length <= rest
    case Stopped(size, _) => length <= left ==> !size
  }

  lemma {:induction false} PiecesSize(members: seq<Member>)
    ensures |Pieces(members)| == 2 * |members|
  {
    if members != [] {
      PiecesSize(members[..|members| - 1]);
    }
  }

  lemma {:induction false} ScalarCovered(rules: Rules, v: Json, depth: nat, left: int)
    requires depth <= rules.depth + 1 && left <= rules.maximum && !v.Arr? && !v.Obj?
    ensures Covered(Visit(rules, NodeOf, NodeOf(v), depth, left), left, |Encode(v)|)
  {
    if v.Str? {
      EscapeLonger(v.s);
    }
    if v.Int? {
      DecimalFirst(if v.n < 0 then -v.n else v.n);
    }
  }

  /** The container's own characters cover its charge, the printed children cover theirs. */
  lemma {:induction false} ContainerCovered(rules: Rules, node: Node<Json>, depth: nat, left: int, inner: nat, own: nat)
    requires depth <= rules.depth && left <= rules.maximum && node.Container? && Charge(rules, node) <= own
    requires var entered := Enter(rules, node, depth, left);
             entered.Passed? ==> Covered(VisitAll(rules, NodeOf, node.children, depth + 1, entered.left), entered.left, inner)
    ensures Covered(Visit(rules, NodeOf, node, depth, left), left, own + inner)
  {
  }

  lemma {:induction false} ArrCharge(rules: Rules, items: seq<Json>)
    ensures Charge(rules, NodeOf(Arr(items))) + ItemsLength(items) <= |Encode(Arr(items))|
  {
    EncodeItemsLength(items);
  }

  lemma {:induction false} ObjCharge(rules: Rules, members: seq<Member>)
    ensures Charge(rules, NodeOf(Obj(members))) + MembersLength(members) <= |Encode(Obj(members))|
  {
    EncodeMembersLength(members);
    PiecesSize(members);
  }

  lemma {:induction false} VisitCovered(rules: Rules, v: Json, depth: nat, left: int)
    requires depth <= rules.depth + 1 && left <= rules.maximum
    ensures Covered(Visit(rules, NodeOf, NodeOf(v), depth, left), left, |Encode(v)|)
    decreases v, 1, 0
  {
    if depth <= rules.depth {
      var entered := Enter(rules, NodeOf(v), depth, left);
      var inside := if entered.Passed? then entered.left else left;
      match v
      case Arr(items) =>
        ItemsCovered(rules, items, depth + 1, inside);
        ArrCovered(rules, items, depth, left);
      case Obj(members) =>
        MembersCovered(rules, members, depth + 1, inside);
        ObjCovered(rules, members, depth, left);
      case _ => ScalarCovered(rules, v, depth, left);
    }
  }

  lemma {:induction false} ArrCovered(rules: Rules, items: seq<Json>, depth: nat, left: int)
    requires depth <= rules.depth && left <= rules.maximum
    requires var entered := Enter(rules, NodeOf(Arr(items)), depth, left);
             entered.Passed? ==> Covered(VisitAll(rules, NodeOf, NodeOf(Arr(items)).children, depth + 1, entered.left), entered.left, ItemsLength(items))
    ensures Covered(Visit(rules, NodeOf, NodeOf(Arr(items)), depth, left), left, |Encode(Arr(items))|)
  {
    ArrCharge(rules, items);
    ContainerCovered(rules, NodeOf(Arr(items)), depth, left, ItemsLength(items), |Encode(Arr(items))| - ItemsLength(items));
  }

  lemma {:induction false} ObjCovered(rules: Rules, members: seq<Member>, depth: nat, left: int)
    requires depth <= rules.depth && left <= rules.maximum
    requires var entered := Enter(rules, NodeOf(Obj(members)), depth, left);
             entered.Passed? ==> Covered(VisitAll(rules, NodeOf, Pieces(members), depth + 1, entered.left), entered.left, MembersLength(members))
    ensures Covered(Visit(rules, NodeOf, NodeOf(Obj(members)), depth, left), left, |Encode(Obj(members))|)
  {
    ObjCharge(rules, members);
    ContainerCovered(rules, NodeOf(Obj(members)), depth, left, MembersLength(members), |Encode(Obj(members))| - MembersLength(members));
  }

  lemma {:induction false} ItemsCovered(rules: Rules, items: seq<Json>, depth: nat, left: int)
    requires depth <= rules.depth + 1 && left <= rules.maximum
    ensures Covered(VisitAll(rules, NodeOf, NodeOf(Arr(items)).children, depth, left), left, ItemsLength(items))
    decreases items, 0, |items|
  {
    if items != [] {
      var before, last := items[..|items| - 1], items[|items| - 1];
      ItemsCovered(rules, before, depth, left);
      var all := NodeOf(Arr(items)).children;
      assert all[..|all| - 1] == NodeOf(Arr(before)).children;
      var so := VisitAll(rules, NodeOf, NodeOf(Arr(before)).children, depth, left);
      if so.Passed? {
        VisitCovered(rules, last, depth, so.left);
      }
    }
  }

  lemma {:induction false} KeyCovered(rules: Rules, key: string, depth: nat, left: int)
    requires depth <= rules.depth + 1 && left <= rules.maximum
    ensures Covered(Visit(rules, NodeOf, Text(Characters(key)), depth, left), left, |Quote(key)|)
  {
    EscapeLonger(key);
  }

  lemma {:induction false} OneMoreCovered(rules: Rules, children: seq<Child<Json>>, child: Child<Json>, depth: nat, left: int, length: nat, more: nat)
    requires depth <= rules.depth + 1 && left <= rules.maximum
    requires Covered(VisitAll(rules, NodeOf, children, depth, left), left, length)
    requires var so := VisitAll(rules, NodeOf, children, depth, left);
             so.Passed? ==> Covered(VisitChild(rules, NodeOf, child, depth, so.left), so.left, more)
    ensures Covered(VisitAll(rules, NodeOf, children + [child], depth, left), left, length + more)
  {
    assert (children + [child])[..|children|] == children;
  }

  lemma {:induction false} MembersCovered(rules: Rules, members: seq<Member>, depth: nat, left: int)
    requires depth <= rules.depth + 1 && left <= rules.maximum
    ensures Covered(VisitAll(rules, NodeOf, Pieces(members), depth, left), left, MembersLength(members))
    decreases members, 0, |members|
  {
    if members != [] {
      var before, last := members[..|members| - 1], members[|members| - 1];
      var key, item: Child<Json> := Key(Characters(last.key)), Item(last.value);
      MembersCovered(rules, before, depth, left);
      var so := VisitAll(rules, NodeOf, Pieces(before), depth, left);
      if so.Passed? {
        KeyCovered(rules, last.key, depth, so.left);
      }
      OneMoreCovered(rules, Pieces(before), key, depth, left, MembersLength(before), |Quote(last.key)|);
      var keyed := Pieces(before) + [key];
      var more := VisitAll(rules, NodeOf, keyed, depth, left);
      if more.Passed? {
        VisitCovered(rules, last.value, depth, more.left);
      }
      OneMoreCovered(rules, keyed, item, depth, left, MembersLength(before) + |Quote(last.key)|, |Encode(last.value)|);
      assert Pieces(members) == keyed + [item];
    }
  }

  /** The pre-check never refuses, for its size, a document whose canonical text fits the maximum. */
  lemma {:induction false} FittingDocumentsPass(rules: Rules, v: Json)
    requires |Encode(v)| <= rules.maximum
    ensures match WalkOf(rules, v)
            case Passed(rest, _) => rules.maximum - |Encode(v)| <= rest
            case Stopped(size, _) => !size
  {
    VisitCovered(rules, v, 0, rules.maximum);
  }

  /** Neither pre-check refuses for its size a document whose canonical text fits. */
  lemma {:induction false} NeitherBudgetRefuses(maximum: nat, v: Json)
    requires |Encode(v)| <= maximum
    ensures WalkOf(SessionRules(maximum), v) != Stopped(true, WalkOf(SessionRules(maximum), v).visits)
    ensures WalkOf(AdmissionRules(maximum), v) != Stopped(true, WalkOf(AdmissionRules(maximum), v).visits)
  {
    FittingDocumentsPass(SessionRules(maximum), v);
    FittingDocumentsPass(AdmissionRules(maximum), v);
  }
}
