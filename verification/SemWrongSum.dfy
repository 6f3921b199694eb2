/** Runs of the semaphore program whose final sum is wrong, because a second producer
    stores while the first number is being read, and exactly when there are any. */
module SemWrongSum {
  import opened Sums
  import opened SemBuffer
  import opened SemResults
  import Runs

  lemma Then(s0: State, s: State, a: Action) returns (s': State)
    requires Runs.Reaches(Step, s0, s) && Enabled(s, a)
    ensures s' == Next(s, a) && Runs.Reaches(Step, s0, s')
  {
    s' := Next(s, a);
    assert Step(s, s');
    Runs.ReachesThen(Step, s0, s, s');
  }

  /** One producer with the mutex free gets as far as raising the index. */
  lemma {:induction false} Stores(s0: State, s: State, t: nat, num: int) returns (s': State)
    requires Runs.Reaches(Step, s0, s) && t < |s.producers| && s.producers[t].pc == Start
    requires s.owner == Nobody && 0 <= s.index < |s.data| - 1 && 0 <= num < 10
    ensures Runs.Reaches(Step, s0, s')
    ensures var p, c := s.producers[t], s.consumer;
            s' == s.(data := s.data[s.index := Item(t, p.made, num)], index := s.index + 1, owner := ProducerOwns(t),
                     pushed := s.pushed + num, producers := s.producers[t := p.(pc := Leaving, made := p.made + 1)],
                     consumer := c.(raced := c.raced || InWindow(c.pc)))
  {
    s' := Then(s0, s, Lock(t));
    s' := Then(s0, s', Test(t, num));
    s' := Then(s0, s', Advance(t));
    var p := s.producers[t];
    assert s'.producers == s.producers[t := p.(pc := Leaving, made := p.made + 1)];
  }

  /** One producer puts its number in the next cell and announces it. */
  lemma {:induction false} Pushes(s0: State, s: State, t: nat, num: int) returns (s': State)
    requires Runs.Reaches(Step, s0, s) && t < |s.producers| && s.producers[t].pc == Start && s.producers[t].left >= 1
    requires s.owner == Nobody && 0 <= s.index < |s.data| - 1 && 0 <= num < 10
    ensures Runs.Reaches(Step, s0, s') && s'.owner == Nobody
    ensures s'.data == s.data[s.index := Item(t, s.producers[t].made, num)] && s'.index == s.index + 1
    ensures s'.full == s.full + 1 && s'.pushed == s.pushed + num
    ensures var p := s.producers[t];
            s'.producers == s.producers[t := Producer(if p.left == 1 then Exited else Start, p.left - 1, p.made + 1)]
    ensures s'.consumer == s.consumer.(raced := s.consumer.raced || InWindow(s.consumer.pc))
  {
    s' := Stores(s0, s, t, num);
    s' := Then(s0, s', Unlock(t));
    s' := Then(s0, s', Post(t));
  }

  /** The consumer takes the top item up to its release of the mutex. */
  lemma Pops(s0: State, s: State) returns (s': State)
    requires Runs.Reaches(Step, s0, s) && s.consumer.pc == WaitFull && s.full > 0 && s.owner == Nobody && s.index > 0
    ensures Runs.Reaches(Step, s0, s')
    ensures s' == s.(index := s.index - 1, full := s.full - 1, consumer := s'.consumer) && s'.consumer.pc == Fetching
    ensures s'.consumer.todo == s.consumer.todo && s'.consumer.sum == s.consumer.sum
  {
    s' := Then(s0, s, Wait);
    s' := Then(s0, s', Take);
    s' := Then(s0, s', Check);
    s' := Then(s0, s', Release);
  }

  lemma Reads(s0: State, s: State) returns (s': State)
    requires Runs.Reaches(Step, s0, s) && s.consumer.pc == Fetching
    ensures Runs.Reaches(Step, s0, s')
    ensures s' == s.(consumer := s'.consumer) && s'.consumer.pc == (if s.consumer.todo <= 1 then Done else WaitFull)
    ensures s'.consumer.todo == (if s.consumer.todo > 0 then s.consumer.todo - 1 else 0)
    ensures s'.consumer.sum == s.consumer.sum + At(s.data, s.index).num
  {
    s' := Then(s0, s, Fetch);
    s' := Then(s0, s', Copy);
  }

  lemma WrongSumIsReachable(s0: State) returns (s: State)
    requires Initial(s0, 2, 1)
    ensures Runs.Reaches(Step, s0, s) && AllDone(s) && s.pushed == 5 + 7 && s.consumer.sum == 0 + 7
  {
    Runs.ReachesSelf(Step, s0);
    s := Pushes(s0, s0, 0, 5);
    s := Pops(s0, s);
    s := Pushes(s0, s, 1, 7);
    s := Reads(s0, s);
    s := Pops(s0, s);
    s := Reads(s0, s);
  }

  /** Two producers about to produce, an empty stack and zeros in every cell. */
  predicate TwoReady(s: State) {
    && |s.producers| >= 2 && s.producers[0] == s.producers[1] && s.producers[0].pc == Start && s.producers[0].left >= 1
    && |s.data| >= 2 && (forall i :: 0 <= i < |s.data| ==> s.data[i].num == 0)
    && s.index == 0 && s.full == 0 && s.owner == Nobody && s.pushed == 0
    && s.consumer.pc == WaitFull && s.consumer.sum == 0
  }

  /** Two producers and a number each are enough to lose the first number, whatever else
      there is to produce. */
  lemma {:induction false} LosesFive(s0: State) returns (s: State)
    requires TwoReady(s0)
    ensures Runs.Reaches(Step, s0, s) && LostFive(s)
  {
    Runs.ReachesSelf(Step, s0);
    var s1 := Pushes(s0, s0, 0, 5);
    var s2 := Pops(s0, s1);
    var s3 := Pushes(s0, s2, 1, 0);
    s := Reads(s0, s3);
  }

  /** The exact condition on the command line: some run ends with a sum other than that of
      the numbers pushed if and only if there are two producers and something to produce. */
  lemma SumCanBeWrongIff(s0: State, M: nat, N: nat)
    requires Initial(s0, M, N)
    ensures (exists s :: Runs.Reaches(Step, s0, s) && AllDone(s) && s.consumer.sum != s.pushed) <==> M >= 2 && N >= 1
  {
    if M >= 2 && N >= 1 {
      InitialInv(s0, M, N);
      SumBounds(s0.producers, Left, 0);
      var s := LosesFive(s0);
      ReachableInv(s0, M, N, s);
      ReachableSize(s0, M, N, s);
      Completes(M, WrongSum, s);
      var z :| Runs.Reaches(Step, s, z) && AllDone(z) && Alive(M, WrongSum, z);
      Runs.ReachesJoin(Step, s0, s, z);
    } else {
      forall s | Runs.Reaches(Step, s0, s) && AllDone(s) ensures s.consumer.sum == s.pushed {
        if M == 1 && N > 0 {
          OneProducerNeverFinishes(s0, N, s);
        } else {
          NothingToDo(s0, M, N, s);
        }
      }
    }
  }
}
