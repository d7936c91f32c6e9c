/**
  The demonstration program: wrappers built from one variable at different
  times, one built behind `Entity`, and one built from a constant and then
  changed through its working copy. Console output is replaced by returning
  each rendered line.
 */
module Driver {
  import opened Restorables
  import opened Sample
  import Decimal

  /** The renderings of the demonstration's values. */
  lemma DemoRenderings()
    ensures ToString(S(1, "alpha")) == "S[ #1 alpha ]"
    ensures ToString(S(2, "beta")) == "S[ #2 beta ]"
    ensures ToString(S(3, "gamma")) == "S[ #3 gamma ]"
    ensures ToString(S(4, "delta")) == "S[ #4 delta ]"
    ensures ToString(S(4, "delta (upd.)")) == "S[ #4 delta (upd.) ]"
  {
    assert Decimal.IntToText(1) == "1" && Decimal.IntToText(2) == "2";
    assert Decimal.IntToText(3) == "3" && Decimal.IntToText(4) == "4";
  }

  /** `loadEntity`: a wrapped `{3, "gamma"}` behind the `Entity` interface. */
  method LoadEntity(log: SaveLog<S>) returns (e: Entity<S>)
    modifies log
    ensures fresh(e) && fresh(e.target)
    ensures log.events == old(log.events) + [S(3, "gamma")]
    ensures e.ToString(ToString) == "S[ #3 gamma ]"
  {
    DemoRenderings();
    var s := S(3, "gamma");
    e := MakeEntity(s, log);
  }

  /**
    The walk-through of `main`. Reassigning `s` after `r1` was built leaves
    `r1` rendering its own copy; the update made through `r4`'s working copy
    is what `r4` renders afterwards.
   */
  method Run() returns (log: SaveLog<S>, r1First: string, r2First: string, r1Later: string,
                        r2Later: string, r3Text: string, r4First: string, r4Updated: string)
    ensures log.events == [S(1, "alpha"), S(2, "beta"), S(3, "gamma"), S(4, "delta")]
    ensures r1First == "S[ #1 alpha ]" && r1Later == r1First
    ensures r2First == "S[ #2 beta ]" && r2Later == r2First
    ensures r3Text == "S[ #3 gamma ]"
    ensures r4First == "S[ #4 delta ]"
    ensures r4Updated == "S[ #4 delta (upd.) ]"
  {
    DemoRenderings();
    log := new SaveLog<S>();
    var s := S(0, "");

    s := S(1, "alpha");
    var r1 := MakeRestorable(s, log);
    r1First := r1.ToString(ToString);
    assert log.events == [S(1, "alpha")];

    s := S(2, "beta");
    var r2 := MakeRestorable(s, log);
    r2First := r2.ToString(ToString);
    assert log.events == [S(1, "alpha"), S(2, "beta")];

    r1Later := r1.ToString(ToString);
    r2Later := r2.ToString(ToString);

    var r3 := LoadEntity(log);
    r3Text := r3.ToString(ToString);
    assert log.events == [S(1, "alpha"), S(2, "beta"), S(3, "gamma")];

    var cs := S(4, "delta");
    var r4 := MakeRestorable(cs, log);
    r4First := r4.ToString(ToString);

    r4.Mutate((x: S) => x.(name := "delta (upd.)"));
    r4Updated := r4.ToString(ToString);
  }
}
