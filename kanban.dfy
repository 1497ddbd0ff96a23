/**
 * The drag-and-drop Kanban board of the landing page's KanbanSection
 * (src/App.tsx:632-676), as values: cards, the four fixed columns, the
 * board, the pending drag, and the two event handlers as pure functions
 * over the component's state.
 */
module Kanban {

  datatype Option<T> = None | Some(value: T)

  datatype Priority = High | Medium | Low

  /** A task card `{ id, title, priority }`. */
  datatype Card = Card(id: int, title: string, priority: Priority)

  /** The four column ids the board renders and accepts drops on. */
  datatype Column = Pending | InProgress | Review | Completed

  /** The `tasks` object: one ordered sequence of cards per column. */
  datatype Board = Board(pending: seq<Card>, inProgress: seq<Card>, review: seq<Card>, completed: seq<Card>)
  {
    /** `tasks[c]` */
    function Get(c: Column): seq<Card> {
      match c
      case Pending => pending
      case InProgress => inProgress
      case Review => review
      case Completed => completed
    }

    /** `{ ...tasks, [c]: s }`: column `c` becomes `s`, the other three are kept. */
    function With(c: Column, s: seq<Card>): (r: Board)
      ensures r.Get(c) == s
      ensures forall d :: d != c ==> r.Get(d) == Get(d)
    {
      match c
      case Pending => this.(pending := s)
      case InProgress => this.(inProgress := s)
      case Review => this.(review := s)
      case Completed => this.(completed := s)
    }
  }

  /** The record `draggedTask` holds while a drag is in flight. */
  datatype Drag = Drag(task: Card, source: Column)

  /** The component's whole state: `tasks` and `draggedTask`. */
  datatype State = State(tasks: Board, dragged: Option<Drag>)

  /** The board the component starts with: ids 1..9 spread over the columns. */
  function Seed(): (r: Board)
    ensures |r.pending| == 3 && |r.inProgress| == 2 && |r.review| == 2 && |r.completed| == 2
    ensures forall c, i :: 0 <= i < |r.Get(c)| ==> 1 <= r.Get(c)[i].id <= 9
  {
    Board(
      [Card(1, "Revisión de especificaciones", High),
       Card(2, "Estimación de costos", Medium),
       Card(3, "Aprobación de cliente", High)],
      [Card(4, "Creación de patrones", High),
       Card(5, "Preparación de materiales", Medium)],
      [Card(6, "QC primera línea", Medium),
       Card(7, "Empaque y etiquetado", Low)],
      [Card(8, "Producción completada", High),
       Card(9, "Envío a bodega", Medium)])
  }

  /** The component's first render: the seed board, no drag in flight, and the invariant holding. */
  function Init(): (r: State)
    ensures r.tasks == Seed() && r.dragged == None
    ensures Inv(r)
  {
    SeedIds();
    State(Seed(), None)
  }

  // ---------------------------------------------------------------------------
  // Card ids and the `filter` that removes a card by id

  /** How many cards of `s` carry `id`. */
  function Count(s: seq<Card>, id: int): nat {
    if s == [] then 0 else (if s[0].id == id then 1 else 0) + Count(s[1..], id)
  }

  lemma {:induction false} CountAppend(a: seq<Card>, b: seq<Card>, id: int)
    ensures Count(a + b, id) == Count(a, id) + Count(b, id)
  {
    if a != [] {
      assert (a + b)[0] == a[0];
      assert (a + b)[1..] == a[1..] + b;
      CountAppend(a[1..], b, id);
    } else {
      assert a + b == b;
    }
  }

  /** How many times card `c` occurs in `s`. */
  function Occurrences(s: seq<Card>, c: Card): nat {
    if s == [] then 0 else (if s[0] == c then 1 else 0) + Occurrences(s[1..], c)
  }

  lemma {:induction false} OccurrencesAppend(a: seq<Card>, b: seq<Card>, c: Card)
    ensures Occurrences(a + b, c) == Occurrences(a, c) + Occurrences(b, c)
  {
    if a != [] {
      assert (a + b)[0] == a[0];
      assert (a + b)[1..] == a[1..] + b;
      OccurrencesAppend(a[1..], b, c);
    } else {
      assert a + b == b;
    }
  }

  /** Taking out position `k` takes out one occurrence of `s[k]` and nothing else. */
  lemma OccurrencesRemoveAt(s: seq<Card>, k: nat)
    requires k < |s|
    ensures forall c :: Occurrences(s[..k] + s[k + 1..], c) + (if c == s[k] then 1 else 0) == Occurrences(s, c)
  {
    assert s == s[..k] + [s[k]] + s[k + 1..];
    forall c ensures Occurrences(s[..k] + s[k + 1..], c) + (if c == s[k] then 1 else 0) == Occurrences(s, c) {
      OccurrencesAppend(s[..k] + [s[k]], s[k + 1..], c);
      OccurrencesAppend(s[..k], [s[k]], c);
      OccurrencesAppend(s[..k], s[k + 1..], c);
    }
  }

  /** A column holding a card counts that card's id. */
  lemma {:induction false} CountMember(s: seq<Card>, c: Card)
    requires c in s
    ensures Count(s, c.id) >= 1
  {
    if s[0] != c {
      CountMember(s[1..], c);
    }
  }

  /** `s.filter(t => t.id !== id)` */
  function Without(s: seq<Card>, id: int): (r: seq<Card>)
    ensures Count(r, id) == 0
    ensures forall x :: x != id ==> Count(r, x) == Count(s, x)
    ensures |r| == |s| - Count(s, id)
  {
    if s == [] then []
    else if s[0].id != id then
      var r := [s[0]] + Without(s[1..], id);
      assert r[1..] == Without(s[1..], id);
      r
    else Without(s[1..], id)
  }

  /** The filter keeps exactly the cards whose id differs. */
  lemma {:induction false} WithoutMembers(s: seq<Card>, id: int)
    ensures forall c :: c in Without(s, id) <==> c in s && c.id != id
  {
    if s != [] {
      WithoutMembers(s[1..], id);
      assert s == [s[0]] + s[1..];
    }
  }

  /** Filtering out an id that does not occur keeps the column as it is. */
  lemma {:induction false} WithoutAbsent(s: seq<Card>, id: int)
    requires Count(s, id) == 0
    ensures Without(s, id) == s
  {
    if s != [] {
      WithoutAbsent(s[1..], id);
      assert s == [s[0]] + s[1..];
    }
  }

  /**
   * When the id of `s[k]` occurs once in `s`, the filter removes exactly
   * position `k` and keeps every other card in its order.
   */
  lemma {:induction false} WithoutDropsOnlyAt(s: seq<Card>, k: nat)
    requires k < |s|
    requires Count(s, s[k].id) == 1
    ensures Without(s, s[k].id) == s[..k] + s[k + 1..]
  {
    var id := s[k].id;
    var t := s[1..];
    assert Count(s, id) == (if s[0].id == id then 1 else 0) + Count(t, id);
    if k == 0 {
      WithoutAbsent(t, id);
    } else {
      assert t[k - 1] == s[k];
      assert s[0].id != id by { CountMember(t, s[k]); }
      WithoutDropsOnlyAt(t, k - 1);
      calc {
        Without(s, id);
        [s[0]] + Without(t, id);
        [s[0]] + (t[..k - 1] + t[k..]);
        { assert t[..k - 1] == s[1..k] && t[k..] == s[k + 1..]; }
        [s[0]] + (s[1..k] + s[k + 1..]);
        { assert [s[0]] + s[1..k] == s[..k]; }
        s[..k] + s[k + 1..];
      }
    }
  }

  /** The filter distributes over concatenation, so it keeps the order of what it keeps. */
  lemma {:induction false} WithoutAppend(a: seq<Card>, b: seq<Card>, id: int)
    ensures Without(a + b, id) == Without(a, id) + Without(b, id)
  {
    if a == [] {
      assert a + b == b;
    } else {
      assert (a + b)[0] == a[0];
      assert (a + b)[1..] == a[1..] + b;
      WithoutAppend(a[1..], b, id);
    }
  }

  /** The filter drops every copy of a card with the id and keeps every other card as often as it was there. */
  lemma {:induction false} OccurrencesWithout(s: seq<Card>, id: int, c: Card)
    ensures Occurrences(Without(s, id), c) == if c.id == id then 0 else Occurrences(s, c)
  {
    if s != [] {
      OccurrencesWithout(s[1..], id, c);
      if s[0].id != id {
        OccurrencesAppend([s[0]], Without(s[1..], id), c);
      }
    }
  }

  // ---------------------------------------------------------------------------
  // The move and the two handlers

  /**
   * The `setTasks` update of handleDrop, run only when `source != target`:
   * the card's id filtered out of `source`, the captured card appended to
   * `target`, the other columns spread over unchanged.
   */
  function Move(b: Board, task: Card, source: Column, target: Column): (r: Board)
    requires source != target
    ensures Count(r.Get(source), task.id) == 0
    ensures r.Get(target) == b.Get(target) + [task]
    ensures forall c :: c != source && c != target ==> r.Get(c) == b.Get(c)
  {
    b.With(source, Without(b.Get(source), task.id)).With(target, b.Get(target) + [task])
  }

  /** handleDragStart: record the card and its column, replacing any earlier record. */
  function DragStart(st: State, task: Card, source: Column): (r: State)
    ensures r.tasks == st.tasks
    ensures r.dragged == Some(Drag(task, source))
  {
    st.(dragged := Some(Drag(task, source)))
  }

  /** handleDrop: nothing without a pending drag; otherwise move when the column differs, then clear. */
  function Drop(st: State, target: Column): (r: State)
    ensures r.dragged == None
    ensures forall c :: c != target && (st.dragged.None? || c != st.dragged.value.source) ==> r.tasks.Get(c) == st.tasks.Get(c)
  {
    match st.dragged
    case None => st
    case Some(Drag(task, source)) =>
      State(if source != target then Move(st.tasks, task, source, target) else st.tasks, None)
  }

  // ---------------------------------------------------------------------------
  // What a single move does

  /**
   * When the card sits in `source` and its id occurs there once, the move
   * takes out exactly that card: `source` shrinks by one and keeps the order
   * of the cards that remain, `target` grows by one.
   */
  lemma MoveRemovesOne(b: Board, task: Card, source: Column, target: Column)
    requires source != target
    requires task in b.Get(source)
    requires Count(b.Get(source), task.id) == 1
    ensures |Move(b, task, source, target).Get(source)| == |b.Get(source)| - 1
    ensures |Move(b, task, source, target).Get(target)| == |b.Get(target)| + 1
    ensures exists k :: (0 <= k < |b.Get(source)| && b.Get(source)[k] == task
      && Move(b, task, source, target).Get(source) == b.Get(source)[..k] + b.Get(source)[k + 1..])
  {
    var s := b.Get(source);
    var k :| 0 <= k < |s| && s[k] == task;
    WithoutDropsOnlyAt(s, k);
  }

  // ---------------------------------------------------------------------------
  // The partition invariant

  /** How many columns' worth of copies of card `c` the board holds. */
  function Copies(b: Board, c: Card): nat {
    Occurrences(b.Get(Pending), c) + Occurrences(b.Get(InProgress), c)
      + Occurrences(b.Get(Review), c) + Occurrences(b.Get(Completed), c)
  }

  /** How many cards on the board carry `id`. */
  function IdCount(b: Board, id: int): nat {
    Count(b.Get(Pending), id) + Count(b.Get(InProgress), id)
      + Count(b.Get(Review), id) + Count(b.Get(Completed), id)
  }

  /** How many cards the board holds. */
  function Size(b: Board): nat {
    |b.Get(Pending)| + |b.Get(InProgress)| + |b.Get(Review)| + |b.Get(Completed)|
  }

  /**
   * The same cards as at the start, each id as often as at the start, and a
   * pending drag (if any) naming a card that still sits in the column it was
   * dragged from.
   */
  ghost predicate Inv(st: State) {
    && (forall c :: Copies(st.tasks, c) == Copies(Seed(), c))
    && (forall id :: IdCount(st.tasks, id) == IdCount(Seed(), id))
    && Size(st.tasks) == Size(Seed())
    && (st.dragged.Some? ==> st.dragged.value.task in st.tasks.Get(st.dragged.value.source))
  }

  lemma CountOfTwo(x: Card, y: Card, id: int)
    ensures Count([x, y], id) == (if x.id == id then 1 else 0) + (if y.id == id then 1 else 0)
  {
    assert [x, y][1..] == [y];
    assert [y][1..] == [];
    assert Count([y], id) == (if y.id == id then 1 else 0) + Count([], id);
  }

  lemma CountOfThree(x: Card, y: Card, z: Card, id: int)
    ensures Count([x, y, z], id) == (if x.id == id then 1 else 0) + Count([y, z], id)
  {
  }

  /** The seed holds nine cards with ids 1..9, once each. */
  lemma SeedIds()
    ensures forall id :: IdCount(Seed(), id) == (if 1 <= id <= 9 then 1 else 0)
    ensures Size(Seed()) == 9
    ensures Inv(State(Seed(), None))
  {
    var b := Seed();
    forall id ensures IdCount(b, id) == (if 1 <= id <= 9 then 1 else 0) {
      CountOfThree(b.pending[0], b.pending[1], b.pending[2], id);
      CountOfTwo(b.pending[1], b.pending[2], id);
      CountOfTwo(b.inProgress[0], b.inProgress[1], id);
      CountOfTwo(b.review[0], b.review[1], id);
      CountOfTwo(b.completed[0], b.completed[1], id);
    }
  }

  /** The two columns other than `s` and `t`, in the three board-wide tallies. */
  function OtherCopies(b: Board, s: Column, t: Column, c: Card): nat {
    (if Pending != s && Pending != t then Occurrences(b.Get(Pending), c) else 0)
      + (if InProgress != s && InProgress != t then Occurrences(b.Get(InProgress), c) else 0)
      + (if Review != s && Review != t then Occurrences(b.Get(Review), c) else 0)
      + (if Completed != s && Completed != t then Occurrences(b.Get(Completed), c) else 0)
  }

  function OtherCount(b: Board, s: Column, t: Column, id: int): nat {
    (if Pending != s && Pending != t then Count(b.Get(Pending), id) else 0)
      + (if InProgress != s && InProgress != t then Count(b.Get(InProgress), id) else 0)
      + (if Review != s && Review != t then Count(b.Get(Review), id) else 0)
      + (if Completed != s && Completed != t then Count(b.Get(Completed), id) else 0)
  }

  function OtherSize(b: Board, s: Column, t: Column): nat {
    (if Pending != s && Pending != t then |b.Get(Pending)| else 0)
      + (if InProgress != s && InProgress != t then |b.Get(InProgress)| else 0)
      + (if Review != s && Review != t then |b.Get(Review)| else 0)
      + (if Completed != s && Completed != t then |b.Get(Completed)| else 0)
  }

  /** Boards that agree outside `s` and `t` agree on the other two columns' tallies. */
  lemma OthersUnchanged(b: Board, r: Board, s: Column, t: Column, c: Card, id: int)
    requires forall d :: d != s && d != t ==> r.Get(d) == b.Get(d)
    ensures OtherCopies(r, s, t, c) == OtherCopies(b, s, t, c)
    ensures OtherCount(r, s, t, id) == OtherCount(b, s, t, id)
  {
  }

  lemma CopiesSplit(b: Board, s: Column, t: Column, c: Card)
    requires s != t
    ensures Copies(b, c) == Occurrences(b.Get(s), c) + Occurrences(b.Get(t), c) + OtherCopies(b, s, t, c)
  {
  }

  lemma IdCountSplit(b: Board, s: Column, t: Column, id: int)
    requires s != t
    ensures IdCount(b, id) == Count(b.Get(s), id) + Count(b.Get(t), id) + OtherCount(b, s, t, id)
  {
  }

  lemma SizeSplit(b: Board, s: Column, t: Column)
    requires s != t
    ensures Size(b) == |b.Get(s)| + |b.Get(t)| + OtherSize(b, s, t)
  {
  }

  /**
   * A move keeps every card, every id tally and the card count, when its
   * card sits in `source` and its id occurs there once.
   */
  lemma MoveKeepsCards(b: Board, task: Card, source: Column, target: Column)
    requires source != target
    requires task in b.Get(source)
    requires Count(b.Get(source), task.id) == 1
    ensures forall c :: Copies(Move(b, task, source, target), c) == Copies(b, c)
  {
    var r := Move(b, task, source, target);
    var s := b.Get(source);
    var k :| 0 <= k < |s| && s[k] == task;
    WithoutDropsOnlyAt(s, k);
    OccurrencesRemoveAt(s, k);
    assert r.Get(source) == s[..k] + s[k + 1..];
    forall c ensures Copies(r, c) == Copies(b, c) {
      OccurrencesAppend(b.Get(target), [task], c);
      CopiesSplit(b, source, target, c);
      CopiesSplit(r, source, target, c);
      OthersUnchanged(b, r, source, target, c, task.id);
    }
  }

  lemma MoveKeepsIds(b: Board, task: Card, source: Column, target: Column)
    requires source != target
    requires Count(b.Get(source), task.id) == 1
    ensures forall id :: IdCount(Move(b, task, source, target), id) == IdCount(b, id)
  {
    var r := Move(b, task, source, target);
    forall id ensures IdCount(r, id) == IdCount(b, id) {
      CountAppend(b.Get(target), [task], id);
      IdCountSplit(b, source, target, id);
      IdCountSplit(r, source, target, id);
      OthersUnchanged(b, r, source, target, task, id);
    }
  }

  lemma MoveKeepsSize(b: Board, task: Card, source: Column, target: Column)
    requires source != target
    requires task in b.Get(source)
    requires Count(b.Get(source), task.id) == 1
    ensures Size(Move(b, task, source, target)) == Size(b)
  {
    var r := Move(b, task, source, target);
    MoveRemovesOne(b, task, source, target);
    SizeSplit(b, source, target);
    SizeSplit(r, source, target);
  }

  /** One column's tally of an id is bounded by the board's. */
  lemma ColumnWithinBoard(b: Board, c: Column, id: int)
    ensures Count(b.Get(c), id) <= IdCount(b, id)
  {
  }

  /** handleDragStart and handleDrop keep the invariant. */
  lemma DragStartKeepsInv(st: State, task: Card, source: Column)
    requires Inv(st)
    requires task in st.tasks.Get(source)
    ensures Inv(DragStart(st, task, source))
  {
  }

  lemma DropKeepsInv(st: State, target: Column)
    requires Inv(st)
    ensures Inv(Drop(st, target))
  {
    match st.dragged
    case None =>
    case Some(Drag(task, source)) =>
      if source != target {
        SeedIds();
        CountMember(st.tasks.Get(source), task);
        ColumnWithinBoard(st.tasks, source, task.id);
        MoveKeepsCards(st.tasks, task, source, target);
        MoveKeepsIds(st.tasks, task, source, target);
        MoveKeepsSize(st.tasks, task, source, target);
      }
  }

  // ---------------------------------------------------------------------------
  // Event sequences

  /** A user gesture: a drag starting on a card, or a drop on a column. */
  datatype Event = DragStartEvent(task: Card, source: Column) | DropEvent(target: Column)

  function Step(st: State, e: Event): State {
    match e
    case DragStartEvent(task, source) => DragStart(st, task, source)
    case DropEvent(target) => Drop(st, target)
  }

  /** A drag can only start on a card that the column it names is rendering. */
  predicate Enabled(st: State, e: Event) {
    e.DragStartEvent? ==> e.task in st.tasks.Get(e.source)
  }

  function Run(st: State, evs: seq<Event>): State
    decreases |evs|
  {
    if evs == [] then st else Run(Step(st, evs[0]), evs[1..])
  }

  predicate Admissible(st: State, evs: seq<Event>)
    decreases |evs|
  {
    evs == [] || (Enabled(st, evs[0]) && Admissible(Step(st, evs[0]), evs[1..]))
  }

  lemma {:induction false} RunKeepsInv(st: State, evs: seq<Event>)
    requires Inv(st)
    requires Admissible(st, evs)
    ensures Inv(Run(st, evs))
    decreases |evs|
  {
    if evs != [] {
      match evs[0] {
        case DragStartEvent(task, source) => DragStartKeepsInv(st, task, source);
        case DropEvent(target) => DropKeepsInv(st, target);
      }
      RunKeepsInv(Step(st, evs[0]), evs[1..]);
    }
  }

  /** Column `c` holds a card with `id`. */
  predicate InColumn(b: Board, c: Column, id: int) {
    Count(b.Get(c), id) > 0
  }

  /** Some column holds a card with `id`. */
  predicate OnBoard(b: Board, id: int) {
    exists c :: InColumn(b, c, id)
  }

  /** When an id occurs once on the board, exactly one column holds it, once. */
  lemma ExactlyOneColumn(b: Board, id: int)
    requires IdCount(b, id) == 1
    ensures OnBoard(b, id)
    ensures forall c, d :: InColumn(b, c, id) && InColumn(b, d, id) ==> c == d
    ensures forall c :: Count(b.Get(c), id) <= 1
  {
    if InColumn(b, Pending, id) {
    } else if InColumn(b, InProgress, id) {
    } else if InColumn(b, Review, id) {
    } else {
      assert InColumn(b, Completed, id);
    }
  }

  /**
   * After any admissible sequence of drag starts and drops from the seed
   * board, the nine seed cards are all still there once each, the board
   * holds nine cards, and every id 1..9 is in exactly one column.
   */
  lemma ReachablePartition(evs: seq<Event>)
    requires Admissible(Init(), evs)
    ensures forall c :: Copies(Run(Init(), evs).tasks, c) == Copies(Seed(), c)
    ensures Size(Run(Init(), evs).tasks) == 9
    ensures forall id :: IdCount(Run(Init(), evs).tasks, id) == (if 1 <= id <= 9 then 1 else 0)
    ensures forall id, c, d :: InColumn(Run(Init(), evs).tasks, c, id) && InColumn(Run(Init(), evs).tasks, d, id) ==> c == d
    ensures forall id :: 1 <= id <= 9 ==> OnBoard(Run(Init(), evs).tasks, id)
  {
    SeedIds();
    RunKeepsInv(Init(), evs);
    var b := Run(Init(), evs).tasks;
    forall id | 1 <= id <= 9 ensures OnBoard(b, id) {
      ExactlyOneColumn(b, id);
    }
    forall id, c, d | InColumn(b, c, id) && InColumn(b, d, id) ensures c == d {
      ColumnWithinBoard(b, c, id);
      ExactlyOneColumn(b, id);
    }
  }

  // ---------------------------------------------------------------------------
  // The handlers' no-op and overwrite cases

  /** A drop with no pending drag changes nothing. */
  lemma DropWithoutDrag(st: State, target: Column)
    requires st.dragged == None
    ensures Drop(st, target) == st
  {
  }

  /** A drop onto the card's own column leaves the board and clears the drag. */
  lemma DropOnSource(st: State, task: Card, source: Column)
    requires st.dragged == Some(Drag(task, source))
    ensures Drop(st, source) == State(st.tasks, None)
  {
  }

  /**
   * A drop onto another column, from any state the invariant holds in: the
   * card leaves its source column, which keeps the rest of its cards in
   * order and shrinks by one, and becomes the last card of the target
   * column, which keeps its earlier cards; the two other columns are
   * untouched and the drag is cleared.
   */
  lemma DropOnOtherColumn(st: State, task: Card, source: Column, target: Column)
    requires Inv(st)
    requires st.dragged == Some(Drag(task, source))
    requires source != target
    ensures Drop(st, target).dragged == None
    ensures Count(Drop(st, target).tasks.Get(source), task.id) == 0
    ensures |Drop(st, target).tasks.Get(source)| == |st.tasks.Get(source)| - 1
    ensures exists k :: (0 <= k < |st.tasks.Get(source)| && st.tasks.Get(source)[k] == task
      && Drop(st, target).tasks.Get(source) == st.tasks.Get(source)[..k] + st.tasks.Get(source)[k + 1..])
    ensures Drop(st, target).tasks.Get(target) == st.tasks.Get(target) + [task]
    ensures forall c :: c != source && c != target ==> Drop(st, target).tasks.Get(c) == st.tasks.Get(c)
  {
    SeedIds();
    CountMember(st.tasks.Get(source), task);
    ColumnWithinBoard(st.tasks, source, task.id);
    MoveRemovesOne(st.tasks, task, source, target);
  }

  /** Every drop clears the drag, so a second drop in a row is a no-op. */
  lemma DropTwice(st: State, t1: Column, t2: Column)
    ensures Drop(st, t1).dragged == None
    ensures Drop(Drop(st, t1), t2) == Drop(st, t1)
  {
  }

  /** A drag start leaves the board and replaces any earlier pending drag. */
  lemma DragStartOverwrites(st: State, t1: Card, s1: Column, t2: Card, s2: Column)
    ensures DragStart(st, t1, s1).tasks == st.tasks
    ensures DragStart(DragStart(st, t1, s1), t2, s2) == DragStart(st, t2, s2)
  {
  }

  /** Dragging card 2 from "pending" to "in progress" on the seed board. */
  lemma SeedMoveCardTwo()
    ensures var b := Drop(DragStart(Init(), Seed().pending[1], Pending), InProgress).tasks;
      && b.pending == [Seed().pending[0], Seed().pending[2]]
      && b.inProgress == Seed().inProgress + [Seed().pending[1]]
      && b.review == Seed().review && b.completed == Seed().completed
  {
    var s := Seed().pending;
    assert s == [s[0]] + [s[1]] + [s[2]];
    CountAppend([s[0]] + [s[1]], [s[2]], 2);
    CountAppend([s[0]], [s[1]], 2);
    WithoutDropsOnlyAt(s, 1);
    assert s[..1] + s[2..] == [s[0], s[2]];
  }
}
