module LedgerLinks {

  // How often the final name is linked, and which crashes take a record away.

  import opened Options
  import opened Ledger
  import opened LedgerSafety

  // ----- The exact number of links

  ghost predicate Publishes(s: State, a: Action) { !IsCrash(a) && Final !in s.dir && Final in Step(s, a).dir }

  /** The crash takes away a link that was not yet durable. */
  ghost predicate Undoes(s: State, a: Action) { IsCrash(a) && Final in s.dir && Final !in Step(s, a).dir }

  ghost function CountLinks(s: State, actions: seq<Action>): nat
    decreases |actions|
  {
    if actions == [] then 0 else (if Publishes(s, actions[0]) then 1 else 0) + CountLinks(Step(s, actions[0]), actions[1..])
  }

  ghost function CountUndone(s: State, actions: seq<Action>): nat
    decreases |actions|
  {
    if actions == [] then 0 else (if Undoes(s, actions[0]) then 1 else 0) + CountUndone(Step(s, actions[0]), actions[1..])
  }

  /** One when the final name is linked. */
  function Links(s: State): nat { if Final in s.dir then 1 else 0 }

  /** A crash links nothing. */
  lemma CrashLinksNothing(s: State, a: Action)
    requires Valid(s) && IsCrash(a) && Final !in s.dir
    ensures Final !in Step(s, a).dir
  {
    if Survives(s, a.dir, a.contents) { assert Lookup(a.dir, Final) == Lookup(s.dir, Final); }
  }

  /** Links and undone links balance: over every run, the links made and the one there before are the links undone and
      the one there after. */
  lemma {:induction false} LinksBalance(s: State, actions: seq<Action>)
    requires Valid(s)
    ensures CountLinks(s, actions) + Links(s) == CountUndone(s, actions) + Links(Run(s, actions))
    decreases |actions|
  {
    hide Valid, Step;
    if actions != [] {
      var a := actions[0];
      StepKeeps(s, a);
      if Final in s.dir {
        if !IsCrash(a) { RecordStays(s, a); }
      } else if IsCrash(a) {
        CrashLinksNothing(s, a);
      }
      LinksBalance(Step(s, a), actions[1..]);
    }
  }

  lemma {:induction false} NothingUndone(s: State, actions: seq<Action>)
    requires CrashFree(actions)
    ensures CountUndone(s, actions) == 0
    decreases |actions|
  {
    hide Step;
    if actions != [] { NothingUndone(Step(s, actions[0]), actions[1..]); }
  }

  /** A permanent record is never undone, and nothing is linked again. */
  lemma {:induction false} PermanentLinksNothing(s: State, actions: seq<Action>)
    requires Valid(s) && Permanent(s)
    ensures CountUndone(s, actions) == 0 && CountLinks(s, actions) == 0
    decreases |actions|
  {
    hide Valid, Step;
    if actions != [] {
      StepKeeps(s, actions[0]);
      RecordStays(s, actions[0]);
      PermanentLinksNothing(Step(s, actions[0]), actions[1..]);
    }
  }

  lemma {:induction false} LinksConcat(s: State, a: seq<Action>, b: seq<Action>)
    ensures Run(s, a + b) == Run(Run(s, a), b)
    ensures CountLinks(s, a + b) == CountLinks(s, a) + CountLinks(Run(s, a), b)
    ensures CountUndone(s, a + b) == CountUndone(s, a) + CountUndone(Run(s, a), b)
    decreases |a|
  {
    hide Step, Publishes, Undoes;
    if a == [] {
      assert a + b == b;
    } else {
      assert (a + b)[1..] == a[1..] + b;
      LinksConcat(Step(s, a[0]), a[1..], b);
    }
  }

  // ----- A consumer that can always be added

  /** Every finite set of numbers has a bound. */
  lemma {:induction false} FreshNumber(used: set<nat>) returns (n: nat)
    ensures forall x <- used :: x < n
    decreases used
  {
    if used == {} {
      n := 0;
    } else {
      var x :| x in used;
      var m := FreshNumber(used - {x});
      n := if m <= x then x + 1 else m;
      assert forall y <- used :: y == x || y in used - {x};
    }
  }

  function Long(n: nat): string { if n == 0 then "" else Long(n - 1) + "0" }

  lemma {:induction false} LongIs(n: nat)
    ensures |Long(n)| == n
  {
    if n > 0 { LongIs(n - 1); }
  }

  lemma FreshConsumer(s: State) returns (id: nat, token: string)
    ensures id !in s.consumers && Temp(token) !in s.dir
  {
    id := FreshNumber(s.consumers.Keys);
    var lengths := set x <- s.dir | x.Temp? :: |x.token|;
    var n := FreshNumber(lengths);
    LongIs(n);
    token := Long(n);
    forall x | x in s.dir && x.Temp? ensures x != Temp(token) {
      assert |x.token| in lengths;
    }
  }

  lemma SoloIsCrashFree(id: nat, token: string)
    ensures CrashFree(Solo(id, token, [], []))
  {
    var p := Advance(id, Proceed);
    ProceedsAre(id);
    assert Solo(id, token, [], []) == [Start(id, token, []), p, p, p, p, p, p, p, p];
    AllFree(Solo(id, token, [], []));
  }

  lemma ProceedsAre(id: nat)
    ensures var p := Advance(id, Proceed); Proceeds(id, 2) == [p, p] && Proceeds(id, 3) == [p, p, p]
  {
    var p := Advance(id, Proceed);
    assert Proceeds(id, 1) == [p] + Proceeds(id, 0);
    assert Proceeds(id, 2) == [p] + Proceeds(id, 1);
    assert Proceeds(id, 3) == [p] + Proceeds(id, 2);
  }

  lemma {:induction false} AllFree(actions: seq<Action>)
    requires forall a <- actions :: !IsCrash(a)
    ensures CrashFree(actions)
  {
    if actions != [] {
      assert actions[0] in actions;
      AllFree(actions[1..]);
    }
  }

  // ----- At most one link

  /** Whatever the consumers do without a further crash, there is at most one link in all: exactly when no crash of the
      run has undone one. */
  lemma LinksOnce(actions: seq<Action>)
    ensures (forall more :: CrashFree(more) ==> CountLinks(EMPTY, actions + more) <= 1) <==> CountUndone(EMPTY, actions) == 0
    ensures CountUndone(EMPTY, actions) == 0 ==> CountLinks(EMPTY, actions) <= 1
  {
    hide Run, CountLinks, CountUndone, CrashFree, Valid;
    EmptyValid();
    LinksBalance(EMPTY, actions);
    forall more | CrashFree(more)
      ensures CountLinks(EMPTY, actions + more) == CountUndone(EMPTY, actions) + Links(Run(EMPTY, actions + more))
    {
      LinksBalance(EMPTY, actions + more);
      LinksConcat(EMPTY, actions, more);
      NothingUndone(Run(EMPTY, actions), more);
    }
    if CountUndone(EMPTY, actions) > 0 {
      var more := LinkAgain(Run(EMPTY, actions));
      LinksConcat(EMPTY, actions, more);
      assert CountLinks(EMPTY, actions + more) > 1;
    }
  }

  /** From every state the final name can be linked without a crash. */
  lemma LinkAgain(s: State) returns (more: seq<Action>)
    ensures CrashFree(more) && Final in Run(s, more).dir
  {
    if Final in s.dir {
      more := [];
    } else {
      var id, token := FreshConsumer(s);
      more := Solo(id, token, [], []);
      SoloIsCrashFree(id, token);
      hide Run, Solo;
      UnpublishedIsConsumable(s, id, token, [], []);
    }
  }

  // ----- Which crashes take a record away

  /** Some crash takes the record away exactly when it is not permanent. */
  lemma CrashMayDrop(s: State)
    requires Valid(s) && Final in s.dir
    ensures (exists a :: Undoes(s, a)) <==> !Permanent(s)
  {
    if Permanent(s) {
      forall a ensures !Undoes(s, a) { RecordStays(s, a); }
    } else {
      var a := Crash(s.dir - {Final}, seq(|s.files|, i requires 0 <= i < |s.files| => s.files[i].content));
      forall n ensures Lookup(a.dir, n) == Lookup(s.dir, n) || (n, Lookup(a.dir, n)) in s.limbo {
        if n == Final { assert Lookup(a.dir, n) == None; }
      }
      assert Survives(s, a.dir, a.contents);
      assert Undoes(s, a);
    }
  }

  /** A crash may leave any content in a file exactly when the file is not synced, and with a name exactly its present value
      or one it had since the last directory fsync. */
  lemma CrashMayLeave(s: State, i: nat, content: Bytes, n: Name, inode: Option<nat>)
    requires i < |s.files|
    ensures (exists dir, contents :: Survives(s, dir, contents) && contents[i] == content) <==>
      !s.files[i].synced || content == s.files[i].content
    ensures (exists dir, contents :: Survives(s, dir, contents) && Lookup(dir, n) == inode) <==>
      inode == Lookup(s.dir, n) || (n, inode) in s.limbo
  {
    var kept := seq(|s.files|, j requires 0 <= j < |s.files| => s.files[j].content);
    assert Survives(s, s.dir, kept);
    if !s.files[i].synced || content == s.files[i].content {
      assert Survives(s, s.dir, kept[i := content]);
    }
    if inode == Lookup(s.dir, n) || (n, inode) in s.limbo {
      var dir := match inode case None => s.dir - {n} case Some(k) => s.dir[n := k];
      forall m ensures Lookup(dir, m) == Lookup(s.dir, m) || (m, Lookup(dir, m)) in s.limbo {}
      assert Survives(s, dir, kept) && Lookup(dir, n) == inode;
    }
  }

  /** A record stays through every run exactly when it is permanent. */
  lemma ForeverIsPermanent(s: State)
    requires Valid(s) && Final in s.dir
    ensures (forall actions :: Record(Run(s, actions)) == Record(s)) <==> Permanent(s)
  {
    hide Valid, Run, Permanent, Record;
    if Permanent(s) {
      forall actions ensures Record(Run(s, actions)) == Record(s) { RecordForever(s, actions); }
    } else {
      CrashMayDrop(s);
      var a :| Undoes(s, a);
      OneStep(s, a);
      DroppedRecord(s, a);
      assert Record(Run(s, [a])) != Record(s);
    }
  }

  lemma OneStep(s: State, a: Action)
    ensures Run(s, [a]) == Step(s, a)
  {
    hide Step;
    assert [a][1..] == [];
  }

  lemma DroppedRecord(s: State, a: Action)
    requires Valid(s) && Undoes(s, a)
    ensures Record(s).Some? && Record(Step(s, a)) == None
  {}

  // ----- A run in which the final name is linked twice

  const FIRST_RECORD: Bytes := [1]
  const SECOND_RECORD: Bytes := [2]

  /** The first consumer links its record and then the system crashes; no directory fsync had come. */
  const UNTIL_CRASH := [Start(0, "a", FIRST_RECORD)] + Proceeds(0, 2) + Writes(0, [1]) + Proceeds(0, 2)
                       + [Crash(map[], [FIRST_RECORD])]

  lemma LinkedByFirst()
    ensures var t := Run(EMPTY, [Start(0, "a", FIRST_RECORD)] + Proceeds(0, 2) + Writes(0, [1]) + Proceeds(0, 2));
      && t.dir == map[Temp("a") := 0, Final := 0] && t.files == [File(FIRST_RECORD, true)]
      && (Temp("a"), None) in t.limbo && (Final, None) in t.limbo
  {
    var p := Advance(0, Proceed);
    ProceedsAre(0);
    assert Writes(0, []) == [];
    assert Writes(0, [1]) == [Advance(0, Write(1))] by { assert [1][1..] == []; }
    var s1 := Step(EMPTY, Start(0, "a", FIRST_RECORD));
    var s2 := Step(s1, p);
    var s3 := Step(s2, p);
    var s4 := Step(s3, Advance(0, Write(1)));
    var s5 := Step(s4, p);
    var s6 := Step(s5, p);
    assert s4.files == [File(FIRST_RECORD, false)] by { assert [] + FIRST_RECORD[0..1] == FIRST_RECORD; }
    assert s5.files == [File(FIRST_RECORD, true)];
    assert s6.dir == map[Temp("a") := 0, Final := 0];
    hide Step;
    RunSix(EMPTY, Start(0, "a", FIRST_RECORD), p, p, Advance(0, Write(1)), p, p);
    assert [Start(0, "a", FIRST_RECORD)] + Proceeds(0, 2) + Writes(0, [1]) + Proceeds(0, 2)
        == [Start(0, "a", FIRST_RECORD), p, p, Advance(0, Write(1)), p, p];
  }

  lemma RunSix(s: State, a: Action, b: Action, c: Action, d: Action, e: Action, f: Action)
    ensures Run(s, [a, b, c, d, e, f]) == Step(Step(Step(Step(Step(Step(s, a), b), c), d), e), f)
  {
    hide Step;
    assert [a, b, c, d, e, f][1..] == [b, c, d, e, f] && [b, c, d, e, f][1..] == [c, d, e, f];
    assert [c, d, e, f][1..] == [d, e, f] && [d, e, f][1..] == [e, f] && [e, f][1..] == [f];
    var t := Step(Step(Step(s, a), b), c);
    assert Run(s, [a, b, c, d, e, f]) == Run(Step(s, a), [b, c, d, e, f]) == Run(Step(Step(s, a), b), [c, d, e, f]);
    assert Run(Step(Step(s, a), b), [c, d, e, f]) == Run(t, [d, e, f]) == Run(Step(t, d), [e, f]);
    OneStep(Step(Step(t, d), e), f);
  }

  /** With one crash the final name is linked twice, first with one record and then with another. */
  lemma LinkedTwice()
    ensures var more := Solo(1, "b", SECOND_RECORD, [1]);
      && CrashFree(more)
      && CountLinks(EMPTY, UNTIL_CRASH + more) == 2 && CountUndone(EMPTY, UNTIL_CRASH + more) == 1
      && Record(Run(EMPTY, UNTIL_CRASH + more)) == Some(SECOND_RECORD)
  {
    hide Run, CountLinks, CountUndone, CrashFree, Valid;
    var linking := [Start(0, "a", FIRST_RECORD)] + Proceeds(0, 2) + Writes(0, [1]) + Proceeds(0, 2);
    var crash := Crash(map[], [FIRST_RECORD]);
    var more := Solo(1, "b", SECOND_RECORD, [1]);
    LinkedByFirst();
    var s := Run(EMPTY, linking);
    assert Undoes(s, crash) && Step(s, crash).dir == map[] && Step(s, crash).consumers == map[] by { CrashUndoes(s); }
    hide Step, Undoes, Solo, Proceeds, Writes;
    OneStep(s, crash);
    CountOne(s, crash);
    LinksConcat(EMPTY, linking, [crash]);
    assert UNTIL_CRASH == linking + [crash];
    LinksConcat(EMPTY, UNTIL_CRASH, more);
    TwoFree();
    NothingUndone(EMPTY, linking);
    NothingUndone(Run(EMPTY, UNTIL_CRASH), more);
    assert Cuts([1], 0, |SECOND_RECORD|) by { assert [1][1..] == []; }
    UnpublishedIsConsumable(Run(EMPTY, UNTIL_CRASH), 1, "b", SECOND_RECORD, [1]);
    EmptyValid();
    LinksBalance(EMPTY, UNTIL_CRASH + more);
  }

  lemma CrashUndoes(s: State)
    requires s.dir == map[Temp("a") := 0, Final := 0] && s.files == [File(FIRST_RECORD, true)]
    requires (Temp("a"), None) in s.limbo && (Final, None) in s.limbo
    ensures var crash := Crash(map[], [FIRST_RECORD]);
      Undoes(s, crash) && Step(s, crash).dir == map[] && Step(s, crash).consumers == map[]
  {
    var none: map<Name, nat> := map[];
    forall n ensures Lookup(none, n) == Lookup(s.dir, n) || (n, Lookup(none, n)) in s.limbo {}
    assert Survives(s, none, [FIRST_RECORD]);
  }

  lemma CountOne(s: State, a: Action)
    requires Undoes(s, a)
    ensures CountUndone(s, [a]) == 1
  {
    hide Step, Undoes;
    assert [a][1..] == [];
    assert CountUndone(Step(s, a), []) == 0;
  }

  lemma TwoFree()
    ensures CrashFree([Start(0, "a", FIRST_RECORD)] + Proceeds(0, 2) + Writes(0, [1]) + Proceeds(0, 2))
    ensures CrashFree(Solo(1, "b", SECOND_RECORD, [1]))
  {
    ProceedsAre(0);
    ProceedsAre(1);
    assert [1][1..] == [];
    assert Writes(0, [1]) == [Advance(0, Write(1))] && Writes(1, [1]) == [Advance(1, Write(1))];
    AllFree([Start(0, "a", FIRST_RECORD)] + Proceeds(0, 2) + Writes(0, [1]) + Proceeds(0, 2));
    AllFree(Solo(1, "b", SECOND_RECORD, [1]));
  }
}
