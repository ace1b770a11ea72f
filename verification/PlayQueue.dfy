/** The local play queue: index arithmetic on a cursor that is meant to follow a track. */
module PlayQueues {
  import opened Prelude

  datatype Queue<+T> = Queue(items: seq<T>, current: Option<nat>)

  datatype Op<T> =
    | Replace(items: seq<T>, start: nat)
    | Enqueue(items: seq<T>)
    | EnqueueNext(items: seq<T>)
    | Remove(index: nat)
    | Clear
    | Advance
    | Previous
    | SetItems(items: seq<T>, cursor: Option<nat>)
    | MoveItem(from: nat, to: nat)
    | Jump(index: nat)

  predicate Valid<T>(q: Queue<T>) {
    q.current.Some? ==> q.current.value < |q.items|
  }

  // ----- The code's index arithmetic -----

  function Removed<T>(q: Queue<T>, index: nat): (r: Queue<T>)
    ensures Valid(q) ==> Valid(r)
  {
    if index >= |q.items| then q
    else
      var items := RemoveAt(q.items, index);
      match q.current
      case None => Queue(items, None)
      case Some(c) =>
        if items == [] then Queue(items, None)
        else if index < c then Queue(items, Some(c - 1))
        else Queue(items, Some(Min(c, |items| - 1)))
  }

  function Moved<T>(q: Queue<T>, from: nat, to: nat): (r: Queue<T>)
    ensures Valid(q) ==> Valid(r)
  {
    if from >= |q.items| then q
    else
      var rest := RemoveAt(q.items, from);
      var target := Min(to, |rest|);
      Queue(InsertAt(rest, target, q.items[from]), Followed(q.current, from, target))
  }

  /** The cursor after the item at `from` went to `target`. */
  function Followed(current: Option<nat>, from: nat, target: nat): Option<nat> {
    match current
    case None => None
    case Some(c) =>
      if c == from then Some(target)
      else
        var after := if from < c then c - 1 else c;
        Some(if target <= after then after + 1 else after)
  }

  function Stepped<T>(q: Queue<T>): Queue<T> {
    match q.current
    case Some(i) => if i + 1 < |q.items| then q.(current := Some(i + 1)) else q.(current := None)
    case None => q
  }

  function SteppedBack<T>(q: Queue<T>): Queue<T> {
    match q.current
    case Some(i) => q.(current := Some(if i == 0 then 0 else i - 1))
    case None => if q.items == [] then q else q.(current := Some(|q.items| - 1))
  }

  function Apply<T>(q: Queue<T>, op: Op<T>): (r: Queue<T>)
    requires Valid(q)
    ensures Valid(r)
  {
    match op
    case Replace(items, start) =>
      Queue(items, if items == [] then None else Some(Min(start, |items| - 1)))
    case Enqueue(items) => q.(items := q.items + items)
    case EnqueueNext(items) =>
      var at := match q.current case None => 0 case Some(i) => i + 1;
      q.(items := q.items[..at] + items + q.items[at..])
    case Remove(index) => Removed(q, index)
    case Clear => Queue([], None)
    case Advance => Stepped(q)
    case Previous => SteppedBack(q)
    case SetItems(items, cursor) =>
      Queue(items, if cursor.Some? && cursor.value < |items| then cursor else None)
    case MoveItem(from, to) => Moved(q, from, to)
    case Jump(index) => if index < |q.items| then q.(current := Some(index)) else q
  }

  /** Where the cursor goes that moves by itself, and which position a new one is put at. */
  lemma CursorMoves<T>(q: Queue<T>, items: seq<T>, n: nat)
    requires Valid(q)
    ensures Apply(q, Advance).current == match q.current case None => None case Some(i) => if i == |q.items| - 1 then None else Some(i + 1)
    ensures Apply(q, Previous).current
         == match q.current
            case Some(i) => (if i == 0 then Some(0) else Some(i - 1))
            case None => if |q.items| == 0 then None else Some(|q.items| - 1)
    ensures Apply(q, Replace(items, n)).current == if |items| == 0 then None else if n < |items| then Some(n) else Some(|items| - 1)
    ensures Apply(q, SetItems(items, Some(n))).current == if n < |items| then Some(n) else None
    ensures Apply(q, Jump(n)).current == if n < |q.items| then Some(n) else q.current
    ensures Apply(q, Advance).items == Apply(q, Previous).items == Apply(q, Jump(n)).items == q.items
    ensures Apply(q, Replace(items, n)).items == Apply(q, SetItems(items, Some(n))).items == items
    ensures Apply(q, Enqueue(items)) == Queue(q.items + items, q.current) && Apply(q, Clear) == Queue([], None)
  {
  }

  /** A whole run; no sequence of operations leaves the cursor outside the queue. */
  function Run<T>(q: Queue<T>, ops: seq<Op<T>>): (r: Queue<T>)
    requires Valid(q)
    ensures Valid(r)
    decreases |ops|
  {
    if ops == [] then q else Run(Apply(q, ops[0]), ops[1..])
  }

  // ----- The same queue with a cursor that names an item -----

  datatype Marked<+T> = Marked(items: seq<T>, cursor: Option<T>)

  function View<T>(q: Queue<T>): Marked<T>
    requires Valid(q)
  {
    Marked(q.items, match q.current case None => None case Some(i) => Some(q.items[i]))
  }

  function Last<T>(items: seq<T>): Option<T> {
    if items == [] then None else Some(items[|items| - 1])
  }

  /** The item following `x`. */
  function Successor<T(==)>(items: seq<T>, x: T): Option<T> {
    if |items| < 2 then None
    else if items[0] == x then Some(items[1])
    else Successor(items[1..], x)
  }

  /** The item preceding `x`. */
  function Predecessor<T(==)>(items: seq<T>, x: T): Option<T> {
    if |items| < 2 then None
    else if items[1] == x then Some(items[0])
    else Predecessor(items[1..], x)
  }

  function SpliceAfter<T(==)>(items: seq<T>, x: T, more: seq<T>): seq<T> {
    if items == [] then more
    else if items[0] == x then [x] + more + items[1..]
    else [items[0]] + SpliceAfter(items[1..], x, more)
  }

  function OrElse<T>(a: Option<T>, b: Option<T>): Option<T> { if a.Some? then a else b }

  /** What each operation means for an item cursor; no cursor index appears. */
  function ApplyMarked<T(==)>(v: Marked<T>, op: Op<T>): Marked<T> {
    match op
    case Replace(items, start) =>
      Marked(items, if start < |items| then Some(items[start]) else Last(items))
    case Enqueue(items) => v.(items := v.items + items)
    case EnqueueNext(items) =>
      v.(items := match v.cursor case None => items + v.items case Some(x) => SpliceAfter(v.items, x, items))
    case Remove(index) =>
      if index >= |v.items| then v
      else
        var gone, items := v.items[index], RemoveAt(v.items, index);
        Marked(items, if v.cursor == Some(gone) then OrElse(Successor(v.items, gone), Last(items)) else v.cursor)
    case Clear => Marked([], None)
    case Advance => v.(cursor := match v.cursor case None => None case Some(x) => Successor(v.items, x))
    case Previous =>
      v.(cursor := match v.cursor case None => Last(v.items) case Some(x) => OrElse(Predecessor(v.items, x), Some(x)))
    case SetItems(items, cursor) =>
      Marked(items, if cursor.Some? && cursor.value < |items| then Some(items[cursor.value]) else None)
    case MoveItem(from, to) =>
      if from >= |v.items| then v
      else v.(items := InsertAt(RemoveAt(v.items, from), Min(to, |v.items| - 1), v.items[from]))
    case Jump(index) => if index < |v.items| then v.(cursor := Some(v.items[index])) else v
  }

  function RunMarked<T(==)>(v: Marked<T>, ops: seq<Op<T>>): Marked<T>
    decreases |ops|
  {
    if ops == [] then v else RunMarked(ApplyMarked(v, ops[0]), ops[1..])
  }

  lemma {:induction false} SuccessorAt<T(!new)>(items: seq<T>, i: nat)
    requires Distinct(items) && i < |items|
    ensures Successor(items, items[i]) == if i + 1 < |items| then Some(items[i + 1]) else None
  {
    if i > 0 {
      SuccessorAt(items[1..], i - 1);
    }
  }

  lemma {:induction false} PredecessorAt<T(!new)>(items: seq<T>, i: nat)
    requires Distinct(items) && i < |items|
    ensures Predecessor(items, items[i]) == if i > 0 then Some(items[i - 1]) else None
  {
    if |items| >= 2 && i == 0 {
      NoPredecessor(items[1..], items[0]);
    } else if i >= 2 {
      PredecessorAt(items[1..], i - 1);
    }
  }

  lemma {:induction false} NoPredecessor<T>(items: seq<T>, x: T)
    requires x !in items
    ensures Predecessor(items, x) == None
  {
    if |items| >= 2 {
      NoPredecessor(items[1..], x);
    }
  }

  lemma {:induction false} SpliceAt<T(!new)>(items: seq<T>, i: nat, more: seq<T>)
    requires Distinct(items) && i < |items|
    ensures SpliceAfter(items, items[i], more) == items[..i + 1] + more + items[i + 1..]
  {
    if i > 0 {
      SpliceAt(items[1..], i - 1, more);
      assert items[..i + 1] == [items[0]] + items[1..][..i];
    }
  }

  lemma RemoveDistinct<T(!new)>(q: Queue<T>, index: nat)
    requires Valid(q) && Distinct(q.items)
    ensures View(Removed(q, index)) == ApplyMarked(View(q), Remove(index))
  {
    if index < |q.items| && q.current.Some? {
      SuccessorAt(q.items, index);
    }
  }

  lemma MoveRefines<T(!new)>(q: Queue<T>, from: nat, to: nat)
    requires Valid(q)
    ensures View(Moved(q, from, to)) == ApplyMarked(View(q), MoveItem(from, to))
  {
  }

  lemma EnqueueNextDistinct<T(!new)>(q: Queue<T>, more: seq<T>)
    requires Valid(q) && Distinct(q.items)
    ensures View(Apply(q, EnqueueNext(more))) == ApplyMarked(View(q), EnqueueNext(more))
  {
    if q.current.Some? {
      SpliceAt(q.items, q.current.value, more);
    } else {
      assert q.items[..0] + more + q.items[0..] == more + q.items;
    }
  }

  lemma StepDistinct<T(!new)>(q: Queue<T>)
    requires Valid(q) && Distinct(q.items)
    ensures View(Stepped(q)) == ApplyMarked(View(q), Advance)
  {
    if q.current.Some? {
      SuccessorAt(q.items, q.current.value);
    }
  }

  lemma StepBackDistinct<T(!new)>(q: Queue<T>)
    requires Valid(q) && Distinct(q.items)
    ensures View(SteppedBack(q)) == ApplyMarked(View(q), Previous)
  {
    if q.current.Some? {
      PredecessorAt(q.items, q.current.value);
    }
  }

  /** On distinct items the index cursor lands on the item the item cursor names. */
  lemma ApplyDistinct<T(!new)>(q: Queue<T>, op: Op<T>)
    requires Valid(q) && Distinct(q.items)
    ensures View(Apply(q, op)) == ApplyMarked(View(q), op)
  {
    match op
    case EnqueueNext(items) => EnqueueNextDistinct(q, items);
    case Remove(index) => RemoveDistinct(q, index);
    case MoveItem(from, to) => MoveRefines(q, from, to);
    case Advance => StepDistinct(q);
    case Previous => StepBackDistinct(q);
    case _ =>
  }

  /** Every queue along the run has distinct items. */
  ghost predicate DistinctAlong<T(!new)>(q: Queue<T>, ops: seq<Op<T>>)
    requires Valid(q)
    decreases |ops|
  {
    Distinct(q.items) && (ops != [] ==> DistinctAlong(Apply(q, ops[0]), ops[1..]))
  }

  lemma {:induction false} RunDistinct<T(!new)>(q: Queue<T>, ops: seq<Op<T>>)
    requires Valid(q) && DistinctAlong(q, ops)
    ensures View(Run(q, ops)) == RunMarked(View(q), ops)
    decreases |ops|
  {
    if ops != [] {
      ApplyDistinct(q, ops[0]);
      RunDistinct(Apply(q, ops[0]), ops[1..]);
    }
  }

  // ----- Tags tell equal items apart -----

  /** An item as it was queued: the same track queued twice carries two tags. */
  datatype Tagged<+T> = Tagged(item: T, tag: nat)

  function Items<T>(s: seq<Tagged<T>>): seq<T> {
    seq(|s|, i requires 0 <= i < |s| => s[i].item)
  }

  function TagItems<T>(items: seq<T>, next: nat): seq<Tagged<T>> {
    seq(|items|, i requires 0 <= i < |items| => Tagged(items[i], next + i))
  }

  function Erase<T>(q: Queue<Tagged<T>>): Queue<T> { Queue(Items(q.items), q.current) }

  function EraseMarked<T>(v: Marked<Tagged<T>>): Marked<T> {
    Marked(Items(v.items), match v.cursor case None => None case Some(x) => Some(x.item))
  }

  function EraseOp<T>(op: Op<Tagged<T>>): Op<T> {
    match op
    case Replace(items, start) => Replace(Items(items), start)
    case Enqueue(items) => Enqueue(Items(items))
    case EnqueueNext(items) => EnqueueNext(Items(items))
    case Remove(index) => Remove(index)
    case Clear => Clear
    case Advance => Advance
    case Previous => Previous
    case SetItems(items, cursor) => SetItems(Items(items), cursor)
    case MoveItem(from, to) => MoveItem(from, to)
    case Jump(index) => Jump(index)
  }

  /** The same operation with tags from `next` on for the items it brings. */
  function TagOp<T>(op: Op<T>, next: nat): Op<Tagged<T>> {
    match op
    case Replace(items, start) => Replace(TagItems(items, next), start)
    case Enqueue(items) => Enqueue(TagItems(items, next))
    case EnqueueNext(items) => EnqueueNext(TagItems(items, next))
    case Remove(index) => Remove(index)
    case Clear => Clear
    case Advance => Advance
    case Previous => Previous
    case SetItems(items, cursor) => SetItems(TagItems(items, next), cursor)
    case MoveItem(from, to) => MoveItem(from, to)
    case Jump(index) => Jump(index)
  }

  /** The items an operation brings in. */
  function Brought<T>(op: Op<T>): seq<T> {
    if op.Replace? || op.Enqueue? || op.EnqueueNext? || op.SetItems? then op.items else []
  }

  function TagOps<T>(ops: seq<Op<T>>, next: nat): seq<Op<Tagged<T>>> {
    if ops == [] then [] else [TagOp(ops[0], next)] + TagOps(ops[1..], next + |Brought(ops[0])|)
  }

  function Tag<T>(q: Queue<T>): Queue<Tagged<T>> { Queue(TagItems(q.items, 0), q.current) }

  /** Tags are distinct and below the counter. */
  ghost predicate Fresh<T(!new)>(items: seq<Tagged<T>>, next: nat) {
    && (forall i :: 0 <= i < |items| ==> items[i].tag < next)
    && (forall i, j :: 0 <= i < j < |items| ==> items[i].tag != items[j].tag)
  }

  /** Each operation brings items with new tags only. */
  ghost predicate FreshOps<T(!new)>(ops: seq<Op<Tagged<T>>>, next: nat) {
    ops != [] ==>
      var items := Brought(ops[0]);
      && Fresh(items, next + |items|)
      && (forall i :: 0 <= i < |items| ==> next <= items[i].tag)
      && FreshOps(ops[1..], next + |items|)
  }

  lemma {:induction false} TagOpsFresh<T(!new)>(ops: seq<Op<T>>, next: nat)
    ensures FreshOps(TagOps(ops, next), next)
  {
    if ops != [] {
      var items := Brought(ops[0]);
      TagOpsFresh(ops[1..], next + |items|);
      assert Brought(TagOp(ops[0], next)) == TagItems(items, next);
      assert TagOps(ops, next)[1..] == TagOps(ops[1..], next + |items|);
    }
  }

  lemma TagOpErases<T>(op: Op<T>, next: nat)
    ensures EraseOp(TagOp(op, next)) == op
  {
  }

  lemma RemoveErases<T>(q: Queue<Tagged<T>>, index: nat)
    ensures Erase(Removed(q, index)) == Removed(Erase(q), index)
  {
    if index < |q.items| {
      assert Items(RemoveAt(q.items, index)) == RemoveAt(Items(q.items), index);
    }
  }

  lemma MoveErases<T>(q: Queue<Tagged<T>>, from: nat, to: nat)
    ensures Erase(Moved(q, from, to)) == Moved(Erase(q), from, to)
  {
    if from < |q.items| {
      var rest := RemoveAt(q.items, from);
      assert Items(rest) == RemoveAt(Items(q.items), from);
      var target := Min(to, |rest|);
      assert Items(InsertAt(rest, target, q.items[from])) == InsertAt(Items(rest), target, q.items[from].item);
    }
  }

  lemma SpliceErases<T>(items: seq<Tagged<T>>, at: nat, more: seq<Tagged<T>>)
    requires at <= |items|
    ensures Items(items[..at] + more + items[at..]) == Items(items)[..at] + Items(more) + Items(items)[at..]
  {
  }

  /** The index arithmetic does not look at the items. */
  lemma ApplyErases<T>(q: Queue<Tagged<T>>, op: Op<Tagged<T>>)
    requires Valid(q)
    ensures Erase(Apply(q, op)) == Apply(Erase(q), EraseOp(op))
  {
    match op
    case Remove(index) => RemoveErases(q, index);
    case MoveItem(from, to) => MoveErases(q, from, to);
    case Enqueue(items) => assert Items(q.items + items) == Items(q.items) + Items(items);
    case EnqueueNext(items) => SpliceErases(q.items, match q.current case None => 0 case Some(i) => i + 1, items);
    case _ =>
  }

  lemma RemoveFresh<T(!new)>(items: seq<Tagged<T>>, i: nat, next: nat)
    requires Fresh(items, next) && i < |items|
    ensures Fresh(RemoveAt(items, i), next)
    ensures forall j :: 0 <= j < |RemoveAt(items, i)| ==> RemoveAt(items, i)[j].tag != items[i].tag
  {
  }

  lemma SpliceFresh<T(!new)>(items: seq<Tagged<T>>, at: nat, more: seq<Tagged<T>>, next: nat)
    requires Fresh(items, next) && Fresh(more, next) && at <= |items|
    requires forall i, j :: 0 <= i < |items| && 0 <= j < |more| ==> items[i].tag != more[j].tag
    ensures Fresh(items[..at] + more + items[at..], next)
  {
  }

  lemma RemovedFresh<T(!new)>(q: Queue<Tagged<T>>, index: nat, next: nat)
    requires Fresh(q.items, next)
    ensures Fresh(Removed(q, index).items, next)
  {
    if index < |q.items| {
      RemoveFresh(q.items, index, next);
    }
  }

  lemma MovedFresh<T(!new)>(q: Queue<Tagged<T>>, from: nat, to: nat, next: nat)
    requires Fresh(q.items, next)
    ensures Fresh(Moved(q, from, to).items, next)
  {
    if from < |q.items| {
      RemoveFresh(q.items, from, next);
      SpliceFresh(RemoveAt(q.items, from), Min(to, |q.items| - 1), [q.items[from]], next);
    }
  }

  lemma EnqueuedFresh<T(!new)>(q: Queue<Tagged<T>>, op: Op<Tagged<T>>, next: nat, after: nat)
    requires Valid(q) && Fresh(q.items, next) && (op.Enqueue? || op.EnqueueNext?)
    requires Fresh(op.items, after) && next <= after && forall i :: 0 <= i < |op.items| ==> next <= op.items[i].tag
    ensures Fresh(Apply(q, op).items, after)
  {
    if op.EnqueueNext? {
      SpliceFresh(q.items, match q.current case None => 0 case Some(i) => i + 1, op.items, after);
    } else {
      SpliceFresh(q.items, |q.items|, op.items, after);
      assert q.items[..|q.items|] + op.items + q.items[|q.items|..] == q.items + op.items;
    }
  }

  /** Every operation keeps the tags distinct. */
  lemma ApplyFresh<T(!new)>(q: Queue<Tagged<T>>, op: Op<Tagged<T>>, next: nat, after: nat)
    requires Valid(q) && Fresh(q.items, next) && next <= after
    requires Fresh(Brought(op), after) && forall i :: 0 <= i < |Brought(op)| ==> next <= Brought(op)[i].tag
    ensures Fresh(Apply(q, op).items, after)
  {
    match op
    case Enqueue(_) => EnqueuedFresh(q, op, next, after);
    case EnqueueNext(_) => EnqueuedFresh(q, op, next, after);
    case Remove(index) => RemovedFresh(q, index, after);
    case MoveItem(from, to) => MovedFresh(q, from, to, after);
    case Advance => assert Stepped(q).items == q.items;
    case Previous => assert SteppedBack(q).items == q.items;
    case _ =>
  }

  lemma TagErases<T(!new)>(q: Queue<T>)
    ensures Erase(Tag(q)) == q && Fresh(Tag(q).items, |q.items|)
  {
  }

  lemma ViewErases<T>(q: Queue<Tagged<T>>)
    requires Valid(q)
    ensures View(Erase(q)) == EraseMarked(View(q))
  {
  }

  /** One operation on any queue, duplicates or not: the index cursor lands where the item cursor
      of the tagged queue does. */
  lemma ApplyRefines<T(!new)>(q: Queue<T>, op: Op<T>)
    requires Valid(q)
    ensures View(Apply(q, op)) == EraseMarked(ApplyMarked(View(Tag(q)), TagOp(op, |q.items|)))
  {
    var tagged := TagOp(op, |q.items|);
    TagErases(q);
    TagOpErases(op, |q.items|);
    ApplyErases(Tag(q), tagged);
    ApplyDistinct(Tag(q), tagged);
    ViewErases(Apply(Tag(q), tagged));
  }

  /** Removing another item keeps the cursor on its own; removing the current one moves it to the
      item behind, else to the last. */
  lemma RemoveRefines<T(!new)>(q: Queue<T>, index: nat)
    requires Valid(q)
    ensures View(Removed(q, index)) == EraseMarked(ApplyMarked(View(Tag(q)), Remove(index)))
  {
    ApplyRefines(q, Remove(index));
  }

  lemma {:induction false} RunErases<T>(q: Queue<Tagged<T>>, ops: seq<Op<T>>, next: nat)
    requires Valid(q)
    ensures Run(Erase(q), ops) == Erase(Run(q, TagOps(ops, next)))
    decreases |ops|
  {
    if ops != [] {
      TagOpErases(ops[0], next);
      ApplyErases(q, TagOp(ops[0], next));
      RunErases(Apply(q, TagOp(ops[0], next)), ops[1..], next + |Brought(ops[0])|);
      assert TagOps(ops, next)[1..] == TagOps(ops[1..], next + |Brought(ops[0])|);
    }
  }

  lemma FreshDistinct<T(!new)>(items: seq<Tagged<T>>, next: nat)
    requires Fresh(items, next)
    ensures Distinct(items)
  {
  }

  lemma {:induction false} TagsStayDistinct<T(!new)>(q: Queue<Tagged<T>>, ops: seq<Op<Tagged<T>>>, next: nat)
    requires Valid(q) && Fresh(q.items, next) && FreshOps(ops, next)
    ensures DistinctAlong(q, ops)
    decreases |ops|
  {
    FreshDistinct(q.items, next);
    if ops != [] {
      var after := next + |Brought(ops[0])|;
      ApplyFresh(q, ops[0], next, after);
      TagsStayDistinct(Apply(q, ops[0]), ops[1..], after);
    }
  }

  /** Whole runs on any queue: the index cursor is where the item cursor of the tagged run is. */
  lemma RunRefines<T(!new)>(q: Queue<T>, ops: seq<Op<T>>)
    requires Valid(q)
    ensures View(Run(q, ops)) == EraseMarked(RunMarked(View(Tag(q)), TagOps(ops, |q.items|)))
  {
    TagErases(q);
    RunErases(Tag(q), ops, |q.items|);
    TagOpsFresh(ops, |q.items|);
    TagsStayDistinct(Tag(q), TagOps(ops, |q.items|), |q.items|);
    RunDistinct(Tag(q), TagOps(ops, |q.items|));
    ViewErases(Run(Tag(q), TagOps(ops, |q.items|)));
  }

  // ----- Moving -----

  lemma MovePermutes<T>(q: Queue<T>, from: nat, to: nat)
    ensures multiset(Moved(q, from, to).items) == multiset(q.items)
  {
    if from < |q.items| {
      var rest := RemoveAt(q.items, from);
      var target := Min(to, |rest|);
      var moved := InsertAt(rest, target, q.items[from]);
      RemoveInserted(rest, target, q.items[from]);
      RemoveAtMultiset(q.items, from);
      RemoveAtMultiset(moved, target);
    }
  }

  lemma FollowedBack(current: Option<nat>, from: nat, target: nat)
    ensures Followed(Followed(current, from, target), target, from) == current
  {
  }

  /** Moving back from where the item landed restores items and cursor, duplicates or not. */
  lemma MoveBackRestores<T>(q: Queue<T>, from: nat, to: nat)
    requires Valid(q) && from < |q.items|
    ensures Moved(Moved(q, from, to), Min(to, |q.items| - 1), from) == q
  {
    var rest, x := RemoveAt(q.items, from), q.items[from];
    var target := Min(to, |rest|);
    RemoveInserted(rest, target, x);
    InsertRemoved(q.items, from);
    FollowedBack(q.current, from, target);
  }

  // ----- The queue object -----

  class PlayQueue<T> {
    var items: seq<T>
    var current: Option<nat>

    ghost function State(): Queue<T>
      reads this
    {
      Queue(items, current)
    }

    constructor ()
      ensures items == [] && current == None
    {
      items, current := [], None;
    }

    /** The track under the cursor. */
    function Current(): (r: Option<T>)
      requires Valid(State())
      reads this
      ensures r == View(State()).cursor
    {
      if current.Some? then Some(items[current.value]) else None
    }

    method Replace(newItems: seq<T>, start: nat) returns (r: Option<T>)
      modifies this
      ensures Valid(State()) && State() == Apply(Queue([], None), Op.Replace(newItems, start))
      ensures r == View(State()).cursor
    {
      items := newItems;
      current := if |items| == 0 then None else Some(Min(start, |items| - 1));
      r := Current();
    }

    method Enqueue(more: seq<T>)
      requires Valid(State())
      modifies this
      ensures State() == Apply(old(State()), Op.Enqueue(more))
    {
      items := items + more;
    }

    method EnqueueNext(more: seq<T>)
      requires Valid(State())
      modifies this
      ensures State() == Apply(old(State()), Op.EnqueueNext(more))
    {
      var at := 0;
      if current.Some? {
        at := current.value + 1;
      }
      items := items[..at] + more + items[at..];
    }

    method Remove(index: nat)
      requires Valid(State())
      modifies this
      ensures State() == Apply(old(State()), Op.Remove(index))
    {
      if index >= |items| {
        return;
      }
      items := items[..index] + items[index + 1..];
      if current.Some? {
        var c := current.value;
        if |items| == 0 {
          current := None;
        } else if index < c {
          current := Some(c - 1);
        } else {
          current := Some(Min(c, |items| - 1));
        }
      }
    }

    method Clear()
      modifies this
      ensures items == [] && current == None
    {
      items := [];
      current := None;
    }

    method Advance() returns (r: Option<T>)
      requires Valid(State())
      modifies this
      ensures State() == Apply(old(State()), Op.Advance) && r == View(State()).cursor
    {
      if current.Some? && current.value + 1 < |items| {
        current := Some(current.value + 1);
        r := Current();
      } else {
        current := None;
        r := None;
      }
    }

    method Previous() returns (r: Option<T>)
      requires Valid(State())
      modifies this
      ensures State() == Apply(old(State()), Op.Previous) && r == View(State()).cursor
    {
      if current.Some? {
        current := Some(if current.value == 0 then 0 else current.value - 1);
        r := Current();
      } else if |items| != 0 {
        current := Some(|items| - 1);
        r := Current();
      } else {
        r := None;
      }
    }

    method SetItems(newItems: seq<T>, cursor: Option<nat>)
      modifies this
      ensures Valid(State()) && State() == Apply(Queue([], None), Op.SetItems(newItems, cursor))
    {
      items := newItems;
      current := if cursor.Some? && cursor.value < |items| then cursor else None;
    }

    method MoveItem(from: nat, to: nat)
      requires Valid(State())
      modifies this
      ensures State() == Apply(old(State()), Op.MoveItem(from, to))
    {
      if from >= |items| {
        return;
      }
      var item := items[from];
      items := items[..from] + items[from + 1..];
      var target := Min(to, |items|);
      items := items[..target] + [item] + items[target..];
      if current.Some? {
        var c := current.value;
        if c == from {
          current := Some(target);
        } else {
          var afterRemove := if from < c then c - 1 else c;
          current := Some(if target <= afterRemove then afterRemove + 1 else afterRemove);
        }
      }
    }

    method Jump(index: nat) returns (r: Option<T>)
      requires Valid(State())
      modifies this
      ensures State() == Apply(old(State()), Op.Jump(index))
      ensures r == if index < |items| then Some(items[index]) else None
    {
      if index < |items| {
        current := Some(index);
        r := Current();
      } else {
        r := None;
      }
    }
  }
}
