/**
 * Publishing a built package by renaming directories (scripts/build-package.ts): builds that follow one
 * another, each killed after any number of its file-system calls.
 */
module Publish {
  import opened Types

  /** A directory: all of one build's payload, or part of something. */
  datatype Tree = Complete(build: nat) | Partial

  /** `.<name>.building-<pid>-<random>`, and the same with `.previous` at its end. */
  datatype Scratch = Scratch(pid: nat, random: string, previous: bool)

  datatype Entry = Entry(tree: Tree, mtime: nat)

  /** What fails of a build's own: the payload, renaming the old one aside, the new one in, or the old one back. */
  datatype Faults = Faults(bundle: bool, aside: bool, swap: bool, undo: bool) {
    /** Nothing that keeps the payload from going in. */
    predicate None() {
      !bundle && !aside && !swap
    }
  }

  /** The old payload is aside and cannot be put back. */
  predicate Stuck(target: Option<Entry>, faults: Faults) {
    target.Some? && !faults.aside && faults.swap && faults.undo
  }

  class Directory {
    var target: Option<Entry>
    var scratch: map<Scratch, Entry>
    /** The calls left before a kill. */
    var calls: nat
    /** The payload last in place. */
    ghost var published: Option<Tree>

    constructor ()
      ensures Safe() && target == None && scratch == map[]
    {
      target, scratch, calls, published := None, map[], 0, None;
    }

    /**
     * The target is the payload last published, complete; or it is missing, and that payload is the one
     * tree a killed build renamed aside.
     */
    ghost predicate Safe()
      reads this
    {
      && (published.Some? ==> published.value.Complete?)
      && (if target.Some? then published == Some(target.value.tree)
          else if published.None? then forall s | s in scratch :: !s.previous
          else AsideOnly(scratch, published.value))
    }

    /** One more call, unless the build is killed before it. */
    method Call() returns (alive: bool)
      modifies `calls
      ensures alive <==> old(calls) > 0
      ensures calls == if alive then old(calls) - 1 else 0
    {
      alive := calls > 0;
      if alive {
        calls := calls - 1;
      }
    }

    /** `rmSync` of a tree: killed part-way, it leaves part of it. */
    method Remove(s: Scratch) returns (alive: bool)
      requires Safe() && (s.previous ==> target.Some?)
      modifies `calls, `scratch
      ensures Safe()
      ensures alive ==> scratch == old(scratch) - {s}
      ensures scratch.Keys <= old(scratch.Keys) && forall other | other in scratch && other != s :: scratch[other] == old(scratch)[other]
    {
      alive := true;
      if s in scratch {
        alive := Call();
        if !alive {
          return;
        }
        scratch := scratch[s := scratch[s].(tree := Partial)];
        alive := Call();
        if !alive {
          return;
        }
      }
      scratch := scratch - {s};
    }

    /** The newest of the trees renamed aside by builds that are gone. */
    method NewestAside(pid: nat) returns (newest: Option<Scratch>)
      ensures newest.None? <==> forall s | s in scratch :: !(s.previous && s.pid != pid)
      ensures newest.Some? ==> newest.value in scratch && newest.value.previous && newest.value.pid != pid
      ensures newest.Some? ==> forall s | s in scratch && s.previous && s.pid != pid :: scratch[s].mtime <= scratch[newest.value].mtime
    {
      newest := None;
      var todo := scratch.Keys;
      while todo != {}
        invariant todo <= scratch.Keys
        invariant newest.None? ==> forall s | s in scratch && s !in todo :: !(s.previous && s.pid != pid)
        invariant newest.Some? ==> newest.value in scratch && newest.value.previous && newest.value.pid != pid
        invariant newest.Some? ==> forall s | s in scratch && s !in todo && s.previous && s.pid != pid ::
          scratch[s].mtime <= scratch[newest.value].mtime
      {
        var s: Scratch :| s in todo;
        todo := todo - {s};
        if s.previous && s.pid != pid && (newest.None? || scratch[newest.value].mtime < scratch[s].mtime) {
          newest := Some(s);
        }
      }
    }

    /**
     * `restoreInterruptedSwap`: put back what a killed build had renamed aside. A tree is put back exactly
     * when one is there whose process reads as gone.
     */
    method RestoreInterruptedSwap(pid: nat) returns (alive: bool)
      requires Safe()
      modifies `calls, `target, `scratch
      ensures Safe() && scratch.Keys <= old(scratch.Keys)
      ensures alive ==> (target.Some? <==> old(target).Some? || exists s | s in old(scratch) :: s.previous && s.pid != pid)
      ensures alive && published.Some? && (forall s | s in old(scratch) :: s.pid != pid) ==>
        target.Some? && target.value.tree == published.value
    {
      if target.Some? {
        return true;
      }
      var newest := NewestAside(pid);
      if newest.None? {
        return true;
      }
      alive := Call();
      if alive {
        target, scratch := Some(scratch[newest.value]), scratch - {newest.value};
      }
    }

    /** `removeStaleScratch`: sweep what builds that are gone have left. */
    method RemoveStaleScratch(pid: nat) returns (alive: bool)
      requires Safe() && (target.None? ==> published.None?) && forall s | s in scratch :: s.pid != pid
      modifies `calls, `scratch
      ensures Safe() && scratch.Keys <= old(scratch.Keys)
      ensures alive ==> scratch == map[]
    {
      alive := true;
      while scratch != map[]
        invariant Safe() && (target.None? ==> published.None?) && scratch.Keys <= old(scratch.Keys)
        decreases scratch.Keys
      {
        var s: Scratch :| s in scratch;
        alive := Remove(s);
        if !alive {
          return;
        }
        assert s !in scratch && scratch.Keys < old(scratch.Keys) + {s};
      }
    }

    /**
     * `promote`: the old payload aside, the new one in, and only then the old one deleted. When the
     * second rename fails the first is undone; when that fails too the old payload stays aside, where
     * the next build finds it.
     */
    method Promote(staging: Scratch, faults: Faults) returns (alive: bool, promoted: bool)
      requires Safe() && !staging.previous && staging in scratch && scratch[staging].tree.Complete?
      requires (target.None? ==> published.None?) && forall s | s in scratch :: !s.previous
      modifies `calls, `target, `scratch, `published
      ensures Safe()
      ensures alive ==> promoted == (!faults.aside && !faults.swap)
      ensures alive && promoted ==> target.Some? && published == Some(old(scratch)[staging].tree) && scratch == old(scratch) - {staging}
      ensures alive && !promoted ==> published == old(published)
      ensures alive && !promoted && !Stuck(old(target), faults) ==> target == old(target) && scratch == old(scratch)
      ensures alive && Stuck(old(target), faults) ==>
        target == None && scratch == old(scratch)[staging.(previous := true) := old(target).value]
      ensures published == old(published) || published == Some(old(scratch)[staging].tree)
      ensures scratch.Keys <= old(scratch.Keys) + {staging.(previous := true)}
    {
      var aside := staging.(previous := true);
      promoted := false;
      if faults.aside {
        alive := Call();
        return;
      }
      var hadPrevious := target.Some?;
      if hadPrevious {
        alive := Call();
        if !alive {
          return;
        }
        scratch, target := scratch[aside := target.value], None;
      }
      alive := Call();
      if !alive {
        return;
      }
      if faults.swap {
        if hadPrevious {
          alive := Call();
          if alive && !faults.undo {
            target, scratch := Some(scratch[aside]), scratch - {aside};
            assert scratch == old(scratch);
          }
        }
        return;
      }
      target, published, scratch := Some(scratch[staging]), Some(scratch[staging].tree), scratch - {staging};
      promoted := true;
      if hadPrevious {
        alive := Remove(aside);
      }
    }

    /**
     * One build, killed after `allowed` calls if it needs more. The directory is safe wherever it stops.
     * It puts back an interrupted swap before it sweeps; it ends with its own payload in place, or, if it
     * failed, with the one it found or put back: in place, or aside if even the undo failed.
     */
    method Build(pid: nat, random: string, build: nat, now: nat, faults: Faults, allowed: nat)
      returns (finished: bool)
      requires Safe() && forall s | s in scratch :: s.pid != pid
      modifies this
      ensures Safe() && forall s | s in scratch :: s in old(scratch) || s.pid == pid
      ensures published == old(published) || published == Some(Complete(build))
      ensures finished && !faults.undo ==> scratch == map[]
      ensures finished && faults.None() ==> target.Some? && target.value.tree == Complete(build)
      ensures finished && !faults.None() ==> published == old(published)
      ensures finished && !faults.None() && !faults.undo ==> target.Some? == published.Some?
    {
      calls := allowed;
      finished := RestoreInterruptedSwap(pid);
      if !finished {
        return;
      }
      finished := RemoveStaleScratch(pid);
      if !finished {
        return;
      }
      var staging := Scratch(pid, random, false);
      finished := Call();
      if !finished {
        return;
      }
      scratch := scratch[staging := Entry(Partial, now)];
      if !faults.bundle {
        finished := Call();
        if !finished {
          return;
        }
        scratch := scratch[staging := Entry(Complete(build), now)];
        var promoted;
        finished, promoted := Promote(staging, faults);
        if !finished {
          return;
        }
      }
      finished := Remove(staging);
    }

    /** Builds one after another, each by a process of its own, killed wherever each is. */
    method BuildAll(attempts: seq<Attempt>)
      requires Safe() && forall i | 0 <= i < |attempts| :: forall s | s in scratch :: s.pid != attempts[i].pid
      requires forall i, j | 0 <= i < j < |attempts| :: attempts[i].pid != attempts[j].pid
      modifies this
      ensures Safe()
      ensures published == old(published) || exists i | 0 <= i < |attempts| :: published == Some(Complete(attempts[i].build))
    {
      for n := 0 to |attempts|
        invariant Safe()
        invariant forall i | n <= i < |attempts| :: forall s | s in scratch :: s.pid != attempts[i].pid
        invariant published == old(published) || exists i | 0 <= i < n :: published == Some(Complete(attempts[i].build))
      {
        var a := attempts[n];
        var _ := Build(a.pid, a.random, a.build, a.now, a.faults, a.allowed);
      }
    }
  }

  /** A build, and the calls it is let make before it is killed. */
  datatype Attempt = Attempt(pid: nat, random: string, build: nat, now: nat, faults: Faults, allowed: nat)

  ghost predicate AsideOnly(scratch: map<Scratch, Entry>, tree: Tree) {
    exists aside | aside in scratch :: aside.previous && scratch[aside].tree == tree && forall s | s in scratch && s.previous :: s == aside
  }
}
