/** The dispatch loop as it is written: per-class lists, an ordered index of the classes that
    may have work, and a cursor into that index whose stale key is erased one turn late. */
module PriorityServer {
  import opened Dispatch
  import opened OrderedIndex

  class PriorityServer {
    const mode: Mode
    var metaCQ: Queues
    var skipList: set<nat>
    var skipListIter: nat      // the key the iterator points at
    var skipListIterPrev: nat
    var priority: int          // int16_t in the source, hence at most 0x8000 classes
    var checkCnt: nat          // uint8_t in the source

    ghost function View(): State
      reads this
    {
      State(metaCQ, priority, checkCnt)
    }

    /** The index agrees with the lists, except that the class served last may linger. */
    ghost predicate Valid()
      reads this
    {
      && WellFormed(mode, View())
      && |metaCQ| <= 0x8000
      && if mode.Strict? || priority == -1 then skipList == Backlogged(metaCQ)
         else && skipList == Backlogged(metaCQ) + {priority}
              && skipListIter == skipListIterPrev == priority
    }

    constructor (mode: Mode, numberOfPriorities: nat)
      requires numberOfPriorities <= 0x8000
      requires mode.Weighted? ==> |mode.weights| == numberOfPriorities
      ensures Valid() && this.mode == mode && |metaCQ| == numberOfPriorities
      ensures forall c | 0 <= c < |metaCQ| :: metaCQ[c] == []
      ensures priority == -1 && checkCnt == 0
    {
      this.mode := mode;
      metaCQ := seq(numberOfPriorities, _ => []);
      skipList := {};
      priority := -1;
      checkCnt := 0;
    }

    method File(priorityID: nat, x: RecvReq)
      requires Valid() && priorityID < |metaCQ|
      modifies this
      ensures Valid() && View() == Dispatch.File(old(View()), priorityID, x)
    {
      skipList := skipList + {priorityID};
      metaCQ := metaCQ[priorityID := metaCQ[priorityID] + [x]];
      assert Backlogged(metaCQ) == Backlogged(old(metaCQ)) + {priorityID};
    }

    /** What is left of the list a request is taken from decides whether its class stays
        backlogged. */
    lemma AfterPop(c: nat)
      requires c < |metaCQ| && metaCQ[c] != []
      ensures var rest := metaCQ[c := metaCQ[c][1..]];
              && Backlogged(rest) + {c} == Backlogged(metaCQ)
              && (c in Backlogged(rest) <==> |metaCQ[c]| > 1)
    {
      var rest := metaCQ[c := metaCQ[c][1..]];
      assert forall d | 0 <= d < |metaCQ| && d != c :: rest[d] == metaCQ[d];
    }

    method ServeStrict() returns (out: seq<Service>)
      requires Valid() && mode.Strict?
      modifies this
      ensures Valid() && View() == Serve(mode, old(View())) && out == Served(mode, old(View()))
    {
      if |skipList| == 0 {
        return [];
      }
      var iter := Least(skipList);
      priority := iter;
      assert |metaCQ[priority]| > 0;
      AfterPop(iter);
      var tmp := metaCQ[priority][0];
      metaCQ := metaCQ[priority := metaCQ[priority][1..]];
      if |metaCQ[priority]| == 0 {
        skipList := skipList - {iter};
      }
      return [Service(iter, tmp)];
    }

    /** Erases the key left behind by the previous turn, once the cursor has moved off it. */
    method EraseStale()
      requires if priority == -1 then skipList == Backlogged(metaCQ)
               else skipList == Backlogged(metaCQ) + {priority} && skipListIterPrev == priority
      requires -1 <= priority < |metaCQ|
      modifies this`skipList
      ensures skipList == Backlogged(metaCQ)
    {
      if priority != -1 && |metaCQ[priority]| == 0 {
        skipList := skipList - {skipListIterPrev};
      }
    }

    /** Serves the class under the cursor and leaves its key in the index. */
    method ServeAtCursor() returns (out: seq<Service>)
      requires WellFormed(mode, View()) && |metaCQ| <= 0x8000 && !mode.Strict?
      requires skipList == Backlogged(metaCQ)
      requires Backlogged(metaCQ) != {} ==> skipListIter in Backlogged(metaCQ)
      modifies this`priority, this`skipListIterPrev, this`metaCQ
      ensures Valid()
      ensures if Backlogged(old(metaCQ)) == {} then View() == old(View()).(last := -1) && out == []
              else && View() == TakeFrom(old(View()), skipListIter)
                   && out == [Service(skipListIter, old(metaCQ)[skipListIter][0])]
    {
      if |skipList| == 0 {
        priority := -1;
        return [];
      }
      priority := skipListIter;
      skipListIterPrev := skipListIter;
      assert |metaCQ[priority]| > 0;
      AfterPop(priority);
      var tmp := metaCQ[priority][0];
      metaCQ := metaCQ[priority := metaCQ[priority][1..]];
      return [Service(priority, tmp)];
    }

    /** Moving the cursor on lands on the next waiting class, stale key or not. */
    method AdvanceCursor()
      requires Valid() && !mode.Strict? && priority != -1 && Backlogged(metaCQ) != {}
      requires Backlogged(metaCQ) != {priority}
      modifies this`skipListIter
      ensures skipListIter == NextClass(Backlogged(metaCQ), priority)
    {
      OnlyElement(Backlogged(metaCQ), priority);
      if skipListIter == Greatest(skipList) {
        skipListIter := Least(skipList);
      } else {
        skipListIter := Advance(skipList, skipListIter);
      }
    }

    method ServeRoundRobin() returns (out: seq<Service>)
      requires Valid() && mode.RoundRobin?
      modifies this
      ensures Valid() && View() == Serve(mode, old(View())) && out == Served(mode, old(View()))
      ensures Backlogged(old(metaCQ)) == {} ==> out == [] && metaCQ == old(metaCQ) && priority == -1
      ensures Backlogged(old(metaCQ)) != {} && old(priority) == -1 ==>
                var c := Least(Backlogged(old(metaCQ)));
                out == [Service(c, old(metaCQ)[c][0])]
    {
      if |skipList| == 0 {
        return [];
      }
      if |skipList| == 1 || priority == -1 {
        SoleKey();
        skipListIter := Least(skipList);
      } else {
        TwoKeys();
        AdvanceCursor();
      }
      EraseStale();
      out := ServeAtCursor();
    }

    /** Keeps the cursor while the burst lasts; moves it on and clears the counter after. */
    method ChooseWeighted()
      requires Valid() && mode.Weighted? && skipList != {}
      modifies this`skipListIter, this`checkCnt
      ensures Backlogged(metaCQ) != {} ==>
                && skipListIter == Choice(mode, old(View()))
                && checkCnt == if Rotates(mode.weights, old(View())) then 0 else old(checkCnt)
      ensures Backlogged(metaCQ) == {} ==> checkCnt == old(checkCnt)
    {
      if |skipList| == 1 || priority == -1 {
        SoleKey();
        skipListIter := Least(skipList);
      } else {
        TwoKeys();
        if checkCnt == mode.weights[priority] || |metaCQ[priority]| == 0 {
          AdvanceCursor();
          checkCnt := 0;
        }
      }
    }

    method ServeWeighted() returns (out: seq<Service>)
      requires Valid() && mode.Weighted?
      modifies this
      ensures Valid() && View() == Serve(mode, old(View())) && out == Served(mode, old(View()))
      ensures Backlogged(old(metaCQ)) == {} ==> out == [] && metaCQ == old(metaCQ) && priority == -1
      ensures Backlogged(old(metaCQ)) != {} && old(priority) == -1 ==>
                var c := Least(Backlogged(old(metaCQ)));
                out == [Service(c, old(metaCQ)[c][0])]
    {
      if |skipList| == 0 {
        return [];
      }
      ghost var s := View();
      ChooseWeighted();
      EraseStale();
      out := ServeAndCount();
      IdleOrLeast(mode, s);
      hide Choice, Counted;
    }

    /** Serves at the cursor and counts the service in eight bits. */
    method ServeAndCount() returns (out: seq<Service>)
      requires WellFormed(mode, View()) && |metaCQ| <= 0x8000 && !mode.Strict?
      requires skipList == Backlogged(metaCQ)
      requires Backlogged(metaCQ) != {} ==> skipListIter in Backlogged(metaCQ)
      modifies this`priority, this`skipListIterPrev, this`metaCQ, this`checkCnt
      ensures Valid()
      ensures if Backlogged(old(metaCQ)) == {} then View() == old(View()).(last := -1) && out == []
              else && View() == TakeFrom(old(View()), skipListIter).(count := Increment(old(checkCnt)))
                   && out == [Service(skipListIter, old(metaCQ)[skipListIter][0])]
    {
      out := ServeAtCursor();
      if out != [] {
        checkCnt := Increment(checkCnt);
      }
    }

    lemma SoleKey()
      requires Valid() && !mode.Strict? && skipList != {} && (|skipList| == 1 || priority == -1)
      ensures Backlogged(metaCQ) != {} ==>
                && Least(skipList) in Backlogged(metaCQ)
                && Least(skipList) == NextClass(Backlogged(metaCQ), priority)
                && (priority == -1 || Backlogged(metaCQ) == {priority})
    {
      if priority != -1 && Backlogged(metaCQ) != {} {
        Singleton(skipList, priority);
        assert Backlogged(metaCQ) <= {priority};
      }
    }

    lemma TwoKeys()
      requires Valid() && !mode.Strict? && priority != -1 && skipList != {} && |skipList| != 1
      ensures Backlogged(metaCQ) != {} && Backlogged(metaCQ) != {priority}
    {
      assert Backlogged(metaCQ) <= {priority} ==> skipList == {priority};
    }
  }

  /** What an iteration of the round robin modes does without a class served last. */
  lemma IdleOrLeast(m: Mode, s: State)
    requires WellFormed(m, s) && !m.Strict?
    ensures Backlogged(s.queues) == {} ==>
              Served(m, s) == [] && Serve(m, s).queues == s.queues && Serve(m, s).last == -1
    ensures Backlogged(s.queues) != {} && s.last == -1 ==>
              var c := Least(Backlogged(s.queues)); Served(m, s) == [Service(c, s.queues[c][0])]
  {
  }

  lemma Singleton(s: set<nat>, x: nat)
    requires x in s && |s| == 1
    ensures s == {x}
  {
    assert |s - {x}| == 0;
  }

  lemma OnlyElement(s: set<nat>, x: nat)
    requires s != {} && s != {x}
    ensures exists d :: d in s && d != x
  {
    assert s - {x} != {};
  }
}
