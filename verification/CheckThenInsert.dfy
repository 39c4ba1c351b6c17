/** A query for conflicting rows and the insert behind it as separate database calls of concurrent
    requests: how many rows that should exclude each other can get in? */
module CheckThenInsert {
  import opened Basics
  import Sets

  /** racing: requests whose query found nothing in the way and that have yet to insert their row. */
  datatype State<K, T> = State(rows: map<K, T>, racing: map<nat, T>)

  datatype Step<K, T> =
    | Check(request: nat, row: T)
    | Insert(request: nat, id: K)
    | Remove(id: K)

  function Start<K, T>(): State<K, T> { State(map[], map[]) }

  predicate Blocked<K, T>(blocks: (T, T) -> bool, rows: map<K, T>, row: T) {
    exists id :: id in rows && blocks(rows[id], row)
  }

  /** A step that does not fit, a taken id included, changes nothing. */
  function Next<K, T>(blocks: (T, T) -> bool, s: State<K, T>, e: Step<K, T>): State<K, T> {
    match e
    case Check(c, row) =>
      if c in s.racing || Blocked(blocks, s.rows, row) then s else s.(racing := s.racing[c := row])
    case Insert(c, id) =>
      if c in s.racing && id !in s.rows then State(s.rows[id := s.racing[c]], s.racing - {c}) else s
    case Remove(id) => s.(rows := s.rows - {id})
  }

  function Run<K, T>(blocks: (T, T) -> bool, s: State<K, T>, steps: seq<Step<K, T>>): State<K, T> {
    if steps == [] then s else Next(blocks, Run(blocks, s, steps[..|steps| - 1]), steps[|steps| - 1])
  }

  function Within<K, T>(rows: map<K, T>, among: T -> bool): set<K> {
    set id | id in rows && among(rows[id])
  }

  /** Any two rows of this kind are in each other's way. */
  ghost predicate Exclusive<T(!new)>(blocks: (T, T) -> bool, among: T -> bool) {
    forall x, y :: among(x) && among(y) ==> blocks(x, y)
  }

  /** At no time are more than so many requests for rows of this kind between query and insert. */
  ghost predicate AtMost<K, T>(blocks: (T, T) -> bool, among: T -> bool, s: State<K, T>, steps: seq<Step<K, T>>,
                               racers: nat) {
    && |Within(Run(blocks, s, steps).racing, among)| <= racers
    && (steps == [] || AtMost(blocks, among, s, steps[..|steps| - 1], racers))
  }

  ghost predicate Counted<K, T>(among: T -> bool, s: State<K, T>, racers: nat) {
    |Within(s.rows, among)| + |Within(s.racing, among)| <= racers
  }

  lemma CheckKeepsCounted<K, T(!new)>(blocks: (T, T) -> bool, among: T -> bool, s: State<K, T>, c: nat, row: T,
                                      racers: nat)
    requires Exclusive(blocks, among) && Counted(among, s, racers)
    requires |Within(Next(blocks, s, Check(c, row)).racing, among)| <= racers
    ensures Counted(among, Next(blocks, s, Check(c, row)), racers)
  {
    if c !in s.racing && !Blocked(blocks, s.rows, row) {
      if among(row) {
        assert Within(s.rows, among) == {};
      } else {
        assert Within(s.racing[c := row], among) == Within(s.racing, among);
      }
    }
  }

  lemma InsertKeepsCounted<K, T>(blocks: (T, T) -> bool, among: T -> bool, s: State<K, T>, c: nat, id: K, racers: nat)
    requires Counted(among, s, racers)
    ensures Counted(among, Next(blocks, s, Insert(c, id)), racers)
  {
    if c in s.racing && id !in s.rows {
      var row := s.racing[c];
      assert Within(s.rows[id := row], among) == if among(row) then Within(s.rows, among) + {id}
             else Within(s.rows, among);
      assert Within(s.racing - {c}, among) == Within(s.racing, among) - {c};
    }
  }

  lemma RemoveKeepsCounted<K, T>(blocks: (T, T) -> bool, among: T -> bool, s: State<K, T>, id: K, racers: nat)
    requires Counted(among, s, racers)
    ensures Counted(among, Next(blocks, s, Remove(id)), racers)
  {
    assert Within(s.rows - {id}, among) == Within(s.rows, among) - {id};
  }

  /** With at most r requests for rows of one kind between query and insert at a time, no more than r
      rows of that kind ever get in: one when they come one by one. */
  lemma {:induction false} RacersBound<K, T(!new)>(blocks: (T, T) -> bool, among: T -> bool, steps: seq<Step<K, T>>,
                                                   racers: nat)
    requires Exclusive(blocks, among) && AtMost(blocks, among, Start(), steps, racers)
    ensures Counted(among, Run(blocks, Start(), steps), racers)
  {
    if steps == [] {
      assert Within<K, T>(map[], among) == {} && Within<nat, T>(map[], among) == {};
    } else {
      var front, last := steps[..|steps| - 1], steps[|steps| - 1];
      RacersBound(blocks, among, front, racers);
      var s := Run(blocks, Start(), front);
      match last
      case Check(c, row) => CheckKeepsCounted(blocks, among, s, c, row, racers);
      case Insert(c, id) => InsertKeepsCounted(blocks, among, s, c, id, racers);
      case Remove(id) => RemoveKeepsCounted(blocks, among, s, id, racers);
    }
  }

  // ---------------------------------------------------------------- the bound is reached

  lemma OneMore<T>(blocks: (T, T) -> bool, among: T -> bool, xs: seq<Step<nat, T>>, s: State<nat, T>, x: Step<nat, T>,
                   t: State<nat, T>, racers: nat) returns (steps: seq<Step<nat, T>>)
    requires s == Run(blocks, Start(), xs) && AtMost(blocks, among, Start(), xs, racers)
    requires t == Next(blocks, s, x) && |Within(t.racing, among)| <= racers
    ensures t == Run(blocks, Start(), steps) && AtMost(blocks, among, Start(), steps, racers)
  {
    steps := xs + [x];
    assert steps[..|steps| - 1] == xs;
  }

  /** Under the numbers from one to another, each number's row. */
  function Numbered<T>(row: nat -> T, from: nat, n: nat): map<nat, T>
    requires from <= n
  {
    map c | c in Sets.Range(from, n) :: row(c)
  }

  lemma NumberedSize<T>(row: nat -> T, among: T -> bool, from: nat, n: nat)
    requires from <= n
    ensures |Within(Numbered(row, from, n), among)| <= n - from
  {
    Sets.SubsetSize(Within(Numbered(row, from, n), among), Sets.Range(from, n));
  }

  lemma NumberedGrows<T>(row: nat -> T, n: nat)
    ensures n !in Numbered(row, 0, n) && Numbered(row, 0, n)[n := row(n)] == Numbered(row, 0, n + 1)
  {}

  lemma NumberedShrinks<T>(row: nat -> T, n: nat, racers: nat)
    requires n < racers
    ensures n in Numbered(row, n, racers) && Numbered(row, n, racers)[n] == row(n)
    ensures Numbered(row, n, racers) - {n} == Numbered(row, n + 1, racers)
  {}

  /** The first so many requests have inserted, and those up to another number have made their query. */
  function Between<T>(row: nat -> T, inserted: nat, checked: nat): State<nat, T>
    requires inserted <= checked
  {
    State(Numbered(row, 0, inserted), Numbered(row, inserted, checked))
  }

  lemma OneMoreCheck<T>(blocks: (T, T) -> bool, row: nat -> T, n: nat)
    ensures Next(blocks, Between(row, 0, n), Check(n, row(n))) == Between(row, 0, n + 1)
  {
    assert Numbered(row, 0, 0) == map[];
    NumberedGrows(row, n);
  }

  lemma OneMoreInsert<T>(blocks: (T, T) -> bool, row: nat -> T, n: nat, racers: nat)
    requires n < racers
    ensures Next(blocks, Between(row, n, racers), Insert(n, n)) == Between(row, n + 1, racers)
  {
    NumberedShrinks(row, n, racers);
    NumberedGrows(row, n);
  }

  lemma {:induction false} AllCheck<T>(blocks: (T, T) -> bool, among: T -> bool, row: nat -> T, n: nat, racers: nat)
    returns (steps: seq<Step<nat, T>>)
    requires n <= racers
    ensures Between(row, 0, n) == Run(blocks, Start(), steps) && AtMost(blocks, among, Start(), steps, racers)
  {
    NumberedSize(row, among, 0, n);
    if n == 0 {
      steps := [];
      assert Numbered(row, 0, 0) == map[];
    } else {
      var before := AllCheck(blocks, among, row, n - 1, racers);
      OneMoreCheck(blocks, row, n - 1);
      steps := OneMore(blocks, among, before, Between(row, 0, n - 1), Check(n - 1, row(n - 1)), Between(row, 0, n),
                       racers);
    }
  }

  lemma {:induction false} AllInsert<T>(blocks: (T, T) -> bool, among: T -> bool, row: nat -> T, n: nat, racers: nat)
    returns (steps: seq<Step<nat, T>>)
    requires n <= racers
    ensures Between(row, n, racers) == Run(blocks, Start(), steps) && AtMost(blocks, among, Start(), steps, racers)
  {
    if n == 0 {
      steps := AllCheck(blocks, among, row, racers, racers);
    } else {
      var before := AllInsert(blocks, among, row, n - 1, racers);
      OneMoreInsert(blocks, row, n - 1, racers);
      NumberedSize(row, among, n, racers);
      steps := OneMore(blocks, among, before, Between(row, n - 1, racers), Insert(n - 1, n - 1),
                       Between(row, n, racers), racers);
    }
  }

  /** And r requests that race do get r rows in, whatever stands in whose way. */
  lemma RacersReachTheBound<T>(blocks: (T, T) -> bool, among: T -> bool, row: nat -> T, racers: nat)
    returns (steps: seq<Step<nat, T>>)
    requires forall i :: among(row(i))
    ensures AtMost(blocks, among, Start(), steps, racers)
    ensures |Within(Run(blocks, Start(), steps).rows, among)| == racers
  {
    steps := AllInsert(blocks, among, row, racers, racers);
    assert Within(Numbered(row, 0, racers), among) == Sets.Range(0, racers);
  }
}
