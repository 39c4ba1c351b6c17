/** Accounts opened at the same time: register and the SSO login look an address up and insert the new
    row in two calls.  Whether the table itself refuses a second row is not in the repository. */
module UserRace {
  import opened Basics
  import opened Text
  import opened UserStore
  import C = CheckThenInsert

  predicate SameAddress(u: User, v: User) { u.email == v.email }

  /** Without interruption the two calls are register, but for the token. */
  lemma UndisturbedRegister(s: State, email: string, name: string)
    requires Valid(s)
    ensures var newcomer := Newcomer(Lower(email), name, false, false);
            var found := C.Next(SameAddress, C.State(s.users, map[]), C.Check(0, newcomer));
            C.Next(SameAddress, found, C.Insert(0, s.next)) == C.State(Apply(s, Register(email, name)).users, map[])
  {
    var newcomer := Newcomer(Lower(email), name, false, false);
    assert C.Blocked(SameAddress, s.users, newcomer) <==> Taken(s.users, Lower(email), None);
    assert map[0 := newcomer] - {0} == map[];
  }

  /** In every interleaving of registrations: if at most r for an address are between lookup and
      insert at a time, at most r accounts get that address, so one when they come one by one. */
  lemma AddressIsNeverCrowded(steps: seq<C.Step<nat, User>>, email: string, racers: nat)
    requires C.AtMost(SameAddress, (u: User) => u.email == email, C.Start(), steps, racers)
    ensures var users := C.Run(SameAddress, C.Start(), steps).rows;
            |set id | id in users && users[id].email == email| <= racers
  {
    var among := (u: User) => u.email == email;
    C.RacersBound(SameAddress, among, steps, racers);
    var users := C.Run(SameAddress, C.Start(), steps).rows;
    assert C.Within(users, among) == set id | id in users && users[id].email == email;
  }

  /** ... and, unless the table refuses, r racing registrations do open r accounts with one address. */
  lemma RacersShareAnAddress(user: User, racers: nat) returns (steps: seq<C.Step<nat, User>>)
    ensures C.AtMost(SameAddress, (u: User) => u.email == user.email, C.Start(), steps, racers)
    ensures var users := C.Run(SameAddress, C.Start(), steps).rows;
            |set id | id in users && users[id].email == user.email| == racers
  {
    var among := (u: User) => u.email == user.email;
    steps := C.RacersReachTheBound(SameAddress, among, n => user, racers);
    var users := C.Run(SameAddress, C.Start(), steps).rows;
    assert C.Within(users, among) == set id | id in users && users[id].email == user.email;
  }
}
