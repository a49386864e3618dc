/**
  The same transactions as methods, as one thread sees them when it gets the lock at once.
  Each method's effect is stated on the protocol's cell, so a call is one of the protocol's
  complete turns.  A user function that yields `None` stands for one that panics.
*/
module ConfigCell {
  import opened Wrappers
  import opened ConfigProtocol
  import opened ConfigSafety

  datatype ConfigError = InvalidConfig | WriteError | ReentrantMutate | Panicking

  /** The calling thread's re-entrancy flag. */
  class ThreadLocal {
    var inMutate: bool

    constructor ()
      ensures !inMutate
    {
      inMutate := false;
    }
  }

  /** The history speaks of what was committed, not of the file. */
  lemma FileIsNotHistory<C>(valid: C -> bool, cell: Cell<C>, disk: C)
    requires HistoryInv(valid, cell)
    ensures HistoryInv(valid, cell.(disk := disk))
  {
  }

  class ConfigCell<!C> {
    const valid: C -> bool
    var file: C
    var inner: C
    var runtime: C
    var locked: bool
    ghost var initial: C
    ghost var committed: seq<Edit<C>>
    ghost var published: nat

    /** The protocol's cell with its lock free. */
    ghost function View(): Cell<C>
      reads this
    {
      Cell(file, inner, runtime, None, initial, committed, published, 0)
    }

    ghost predicate Valid()
      reads this
    {
      !locked && file == inner && HistoryInv(valid, View())
    }

    constructor (valid: C -> bool, cfg: C)
      requires valid(cfg)
      ensures Valid() && View() == Cell(cfg, cfg, cfg, None, cfg, [], 0, 0)
      ensures this.valid == valid
    {
      this.valid := valid;
      file, inner, runtime, locked := cfg, cfg, cfg, false;
      initial, committed, published := cfg, [], 0;
    }

    /** Under the lock, with the file written: swap the snapshot and run the hook. */
    method Swap(cfg: C, ghost edits: seq<Edit<C>>, hookStores: bool)
      requires HistoryInv(valid, View()) && valid(cfg) && cfg == Fold(inner, edits)
      modifies this`inner, this`runtime, this`committed, this`published
      ensures HistoryInv(valid, View())
      ensures var all := old(committed) + edits;
        View() == old(View()).(mem := cfg, committed := all,
          runtime := if hookStores then cfg else old(runtime),
          published := if hookStores then |all| else old(published))
    {
      hide Fold;
      ghost var all := committed + edits;
      FoldConcat(initial, committed, edits);
      assert all[..published] == committed[..published];
      assert all[..|all|] == all;
      inner := cfg;
      committed := all;
      if hookStores {
        runtime := cfg;
        published := |all|;
      }
    }

    /**
      Clone, mutate, validate, write the file, swap the snapshot, run the hook.  The flag is
      down again on every way out except a rejected re-entry, which leaves everything alone.
    */
    method MutateThen(tls: ThreadLocal, mutator: C -> Option<C>, writeOk: bool, hookStores: bool)
      returns (r: Result<(), ConfigError>)
      requires Valid()
      modifies this, tls
      ensures Valid()
      ensures tls.inMutate == old(tls.inMutate)
      ensures r == (
        if old(tls.inMutate) then Err(ReentrantMutate)
        else match mutator(old(inner))
          case None => Err(Panicking)
          case Some(cfg) =>
            if !valid(cfg) then Err(InvalidConfig) else if !writeOk then Err(WriteError) else Ok(()))
      ensures r.Err? ==> View() == old(View())
      ensures r.Ok? ==>
        var cfg := mutator(old(inner)).value;
        var edits := old(committed) + [c => mutator(c).GetOr(c)];
        View() == old(View()).(disk := cfg, mem := cfg, committed := edits,
          runtime := if hookStores then cfg else old(runtime),
          published := if hookStores then |edits| else old(published))
    {
      hide HistoryInv, Fold;
      var wasInMutate := tls.inMutate;
      tls.inMutate := true;
      if wasInMutate {
        return Err(ReentrantMutate);
      }
      locked := true;
      var mutated := mutator(inner);
      if mutated.None? {
        locked := false;
        tls.inMutate := false;
        return Err(Panicking);
      }
      var cfg := mutated.value;
      if !valid(cfg) {
        locked := false;
        tls.inMutate := false;
        return Err(InvalidConfig);
      }
      if !writeOk {
        locked := false;
        tls.inMutate := false;
        return Err(WriteError);
      }
      FileIsNotHistory(valid, View(), cfg);
      file := cfg;
      FoldOneMore(inner, [], (c: C) => mutator(c).GetOr(c));
      FoldNothing(inner);
      assert [] + [(c: C) => mutator(c).GetOr(c)] == [(c: C) => mutator(c).GetOr(c)];
      Swap(cfg, [(c: C) => mutator(c).GetOr(c)], hookStores);
      locked := false;
      tls.inMutate := false;
      return Ok(());
    }

    /** Opens a write guard on a clone of the snapshot, unless the thread already has one. */
    method OpenMutation(tls: ThreadLocal) returns (r: Result<CellGuard<C>, ConfigError>)
      requires Valid()
      modifies this`locked, tls
      ensures tls.inMutate
      ensures r.Ok? <==> !old(tls.inMutate)
      ensures r.Err? ==> r.error == ReentrantMutate && Valid()
      ensures r.Ok? ==>
        && fresh(r.value) && r.value.Holding(this, tls)
        && r.value.cfg == Some(inner) && r.value.edits == []
      ensures View() == old(View())
    {
      var wasIn := tls.inMutate;
      tls.inMutate := true;
      if wasIn {
        return Err(ReentrantMutate);
      }
      locked := true;
      var guard := new CellGuard(this, tls, inner);
      return Ok(guard);
    }
  }

  class CellGuard<!C> {
    const cell: ConfigCell<C>
    const tls: ThreadLocal
    var cfg: Option<C>
    ghost var edits: seq<Edit<C>>

    /** The guard holds the lock and the flag, and its clone is the snapshot plus its edits. */
    ghost predicate Holding(cell: ConfigCell<C>, tls: ThreadLocal)
      reads this, cell, tls
    {
      && this.cell == cell && this.tls == tls
      && cell.locked && tls.inMutate && cell.file == cell.inner && HistoryInv(cell.valid, cell.View())
      && cfg == Some(Fold(cell.inner, edits))
    }

    constructor (cell: ConfigCell<C>, tls: ThreadLocal, cfg: C)
      ensures this.cell == cell && this.tls == tls && this.cfg == Some(cfg) && edits == []
    {
      this.cell, this.tls, this.cfg, edits := cell, tls, Some(cfg), [];
    }

    /** One update through the mutable reference that `config()` hands out. */
    method Update(f: Edit<C>)
      requires Holding(cell, tls)
      modifies this
      ensures Holding(cell, tls) && edits == old(edits) + [f]
    {
      assert (edits + [f])[..|edits|] == edits;
      cfg := Some(f(cfg.value));
      edits := edits + [f];
    }

    /** Either all of the guard's edits are committed everywhere, or none of them anywhere. */
    method Commit(writeOk: bool, hookStores: bool) returns (r: Result<(), ConfigError>)
      requires Holding(cell, tls)
      modifies this, cell, tls
      ensures cell.Valid() && !tls.inMutate && cfg.None?
      ensures r == (
        if !cell.valid(Fold(old(cell.inner), old(edits))) then Err(InvalidConfig)
        else if !writeOk then Err(WriteError) else Ok(()))
      ensures r.Err? ==> cell.View() == old(cell.View())
      ensures r.Ok? ==>
        var final, all := Fold(old(cell.inner), old(edits)), old(cell.committed) + old(edits);
        cell.View() == old(cell.View()).(disk := final, mem := final, committed := all,
          runtime := if hookStores then final else old(cell.runtime),
          published := if hookStores then |all| else old(cell.published))
    {
      hide HistoryInv, Fold;
      var taken := cfg.value;
      cfg := None;
      if !cell.valid(taken) {
        Release();
        return Err(InvalidConfig);
      }
      if !writeOk {
        Release();
        return Err(WriteError);
      }
      FileIsNotHistory(cell.valid, cell.View(), taken);
      cell.file := taken;
      cell.Swap(taken, edits, hookStores);
      Release();
      return Ok(());
    }

    method Rollback()
      requires Holding(cell, tls)
      modifies this, cell`locked, tls
      ensures cell.Valid() && !tls.inMutate && cfg.None? && cell.View() == old(cell.View())
    {
      cfg := None;
      Release();
    }

    /** Drop order: the lock first, then the flag. */
    method Release()
      modifies cell`locked, tls
      ensures !cell.locked && !tls.inMutate
    {
      cell.locked := false;
      tls.inMutate := false;
    }
  }
}
