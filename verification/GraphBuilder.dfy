/** PushSubmission, lines 1088-1147: building the entries of a submission. */
module GraphBuilder {
  import opened Types
  import opened TaskGraph
  import Lifecycle
  import opened Serial
  import opened TaskList

  ghost predicate Built(sub: Submission, nm: Numbering, g: map<Task, Entry>) {
    && Counts(g)
    && forall t :: t in g ==> g[t].priority == sub.priority && g[t].order == OrderOf(nm, t)
  }

  predicate OfChain(t: Task) { t.Execute? || t.Scoring? }

  /** The tasks of testdata below `i`, those of testdata `i` in stages below `j`, and the summary. */
  ghost predicate KeysUpTo(sub: Submission, keys: set<Task>, i: nat, j: nat)
    requires sub.stages >= 1
  {
    forall t :: t in keys <==>
      (IsTask(sub, t) && (t.Summary? || (OfChain(t) && (t.td < i || (t.td == i && t.stage < j)))))
  }

  /** Among them, every edge except those to the summary from testdata not below `i`. */
  ghost predicate LinksUpTo(sub: Submission, keys: set<Task>, links: set<(Task, Task)>, i: nat)
    requires sub.stages >= 1
  {
    forall a, b :: (a, b) in links <==>
      (a in keys && b in keys && OfChain(a) && Edge(sub, a, b) && (b.Summary? ==> a.td < i))
  }

  method NewEntry(sub: Submission, nm: Numbering, g: map<Task, Entry>, t: Task) returns (g': map<Task, Entry>)
    requires Built(sub, nm, g) && t !in g
    ensures Built(sub, nm, g') && g'.Keys == g.Keys + {t} && Links(g') == Links(g)
  {
    AddCounts(g, t, sub.priority, OrderOf(nm, t));
    g' := AddEntry(g, t, sub.priority, OrderOf(nm, t));
  }

  lemma LinkLinks(g: map<Task, Entry>, a: Task, b: Task)
    requires a in g && b in g && a != b
    ensures Links(LinkEntries(g, a, b)) == Links(g) + {(a, b)}
  {
    var g' := LinkEntries(g, a, b);
    forall x, y ensures (x, y) in Links(g') <==> (x, y) in Links(g) || (x, y) == (a, b) {
      assert (x, y) in Links(g) <==> x in g && y in g[x].edges;
      assert (x, y) in Links(g') <==> x in g' && y in g'[x].edges;
    }
  }

  lemma LinkBuilt(sub: Submission, nm: Numbering, g: map<Task, Entry>, a: Task, b: Task)
    requires Built(sub, nm, g) && a in g && b in g && a != b && (a, b) !in Links(g)
    ensures Built(sub, nm, LinkEntries(g, a, b))
  {
    hide Counts;
    assert b !in g[a].edges;
    hide Links;
    LinkCounts(g, a, b);
  }

  method Link(sub: Submission, nm: Numbering, g: map<Task, Entry>, a: Task, b: Task) returns (g': map<Task, Entry>)
    requires Built(sub, nm, g) && a in g && b in g && a != b && (a, b) !in Links(g)
    ensures Built(sub, nm, g') && g'.Keys == g.Keys && Links(g') == Links(g) + {(a, b)}
  {
    LinkBuilt(sub, nm, g, a, b);
    LinkLinks(g, a, b);
    g' := LinkEntries(g, a, b);
  }

  lemma AlternatingStep(sub: Submission, keys: set<Task>, links: set<(Task, Task)>, i: nat, j: nat)
    requires sub.stages >= 1 && i < |sub.testdata| && j < sub.stages && sub.judgeBetweenStages
    requires KeysUpTo(sub, keys, i, j) && LinksUpTo(sub, keys, links, i)
    ensures Execute(i, j) !in keys && Scoring(i, j) !in keys && (j > 0 ==> Scoring(i, j - 1) in keys)
    ensures forall a, b :: (a, b) in links ==> b != Execute(i, j) && b != Scoring(i, j)
    ensures var keys' := keys + {Execute(i, j)} + {Scoring(i, j)};
            var links' := links + {(Execute(i, j), Scoring(i, j))} +
                          if j > 0 then {(Scoring(i, j - 1), Execute(i, j))} else {};
            KeysUpTo(sub, keys', i, j + 1) && LinksUpTo(sub, keys', links', i)
  {
  }

  /** The entries of testdata `i`, judged between stages. */
  method AddAlternating(sub: Submission, nm: Numbering, g0: map<Task, Entry>, i: nat) returns (g: map<Task, Entry>)
    requires sub.stages >= 1 && i < |sub.testdata| && sub.judgeBetweenStages
    requires Built(sub, nm, g0) && KeysUpTo(sub, g0.Keys, i, 0) && LinksUpTo(sub, g0.Keys, Links(g0), i)
    ensures Built(sub, nm, g) && KeysUpTo(sub, g.Keys, i, sub.stages) && LinksUpTo(sub, g.Keys, Links(g), i)
  {
    g := g0;
    for j := 0 to sub.stages
      invariant Built(sub, nm, g) && KeysUpTo(sub, g.Keys, i, j) && LinksUpTo(sub, g.Keys, Links(g), i)
    {
      AlternatingStep(sub, g.Keys, Links(g), i, j);
      ghost var keys, links := g.Keys, Links(g);
      g := NewEntry(sub, nm, g, Execute(i, j));
      g := NewEntry(sub, nm, g, Scoring(i, j));
      g := Link(sub, nm, g, Execute(i, j), Scoring(i, j));
      if j > 0 {
        g := Link(sub, nm, g, Scoring(i, j - 1), Execute(i, j));
      }
      assert g.Keys == keys + {Execute(i, j)} + {Scoring(i, j)};
      assert Links(g) == links + {(Execute(i, j), Scoring(i, j))} +
                         if j > 0 then {(Scoring(i, j - 1), Execute(i, j))} else {};
    }
  }

  /** Like KeysUpTo, while testdata `i` has no scoring task yet. */
  ghost predicate RunKeysUpTo(sub: Submission, keys: set<Task>, i: nat, j: nat)
    requires sub.stages >= 1
  {
    forall t :: t in keys <==> (IsTask(sub, t) &&
      (t.Summary? || (OfChain(t) && (t.td < i || (t.td == i && t.Execute? && t.stage < j)))))
  }

  lemma RunStep(sub: Submission, keys: set<Task>, links: set<(Task, Task)>, i: nat, j: nat)
    requires sub.stages >= 1 && i < |sub.testdata| && j < sub.stages && !sub.judgeBetweenStages
    requires RunKeysUpTo(sub, keys, i, j) && LinksUpTo(sub, keys, links, i)
    ensures Execute(i, j) !in keys && (j > 0 ==> Execute(i, j - 1) in keys)
    ensures forall a, b :: (a, b) in links ==> b != Execute(i, j)
    ensures var keys' := keys + {Execute(i, j)};
            var links' := links + if j > 0 then {(Execute(i, j - 1), Execute(i, j))} else {};
            RunKeysUpTo(sub, keys', i, j + 1) && LinksUpTo(sub, keys', links', i)
  {
  }

  lemma RunEnd(sub: Submission, keys: set<Task>, links: set<(Task, Task)>, i: nat)
    requires sub.stages >= 1 && i < |sub.testdata| && !sub.judgeBetweenStages
    requires RunKeysUpTo(sub, keys, i, sub.stages) && LinksUpTo(sub, keys, links, i)
    ensures var s := Scoring(i, sub.stages - 1);
            var e := Execute(i, sub.stages - 1);
            && s !in keys && e in keys && (e, s) !in links
            && KeysUpTo(sub, keys + {s}, i, sub.stages) && LinksUpTo(sub, keys + {s}, links + {(e, s)}, i)
  {
  }

  /** The entries of testdata `i`, judged after the last stage. */
  method AddRuns(sub: Submission, nm: Numbering, g0: map<Task, Entry>, i: nat) returns (g: map<Task, Entry>)
    requires sub.stages >= 1 && i < |sub.testdata| && !sub.judgeBetweenStages
    requires Built(sub, nm, g0) && KeysUpTo(sub, g0.Keys, i, 0) && LinksUpTo(sub, g0.Keys, Links(g0), i)
    ensures Built(sub, nm, g) && KeysUpTo(sub, g.Keys, i, sub.stages) && LinksUpTo(sub, g.Keys, Links(g), i)
  {
    g := g0;
    for j := 0 to sub.stages
      invariant Built(sub, nm, g) && RunKeysUpTo(sub, g.Keys, i, j) && LinksUpTo(sub, g.Keys, Links(g), i)
    {
      RunStep(sub, g.Keys, Links(g), i, j);
      ghost var links := Links(g);
      g := NewEntry(sub, nm, g, Execute(i, j));
      if j > 0 {
        g := Link(sub, nm, g, Execute(i, j - 1), Execute(i, j));
      }
      assert Links(g) == links + if j > 0 then {(Execute(i, j - 1), Execute(i, j))} else {};
    }
    RunEnd(sub, g.Keys, Links(g), i);
    g := NewEntry(sub, nm, g, Scoring(i, sub.stages - 1));
    g := Link(sub, nm, g, Execute(i, sub.stages - 1), Scoring(i, sub.stages - 1));
  }

  lemma ChainEnd(sub: Submission, keys: set<Task>, links: set<(Task, Task)>, i: nat)
    requires sub.stages >= 1 && i < |sub.testdata|
    requires KeysUpTo(sub, keys, i, sub.stages) && LinksUpTo(sub, keys, links, i)
    ensures var s := Scoring(i, sub.stages - 1);
            && s in keys && Summary in keys && (s, Summary) !in links
            && KeysUpTo(sub, keys, i + 1, 0) && LinksUpTo(sub, keys, links + {(s, Summary)}, i + 1)
  {
  }

  method AddChains(sub: Submission, nm: Numbering) returns (g: map<Task, Entry>)
    requires sub.stages >= 1
    ensures Built(sub, nm, g)
    ensures KeysUpTo(sub, g.Keys, |sub.testdata|, 0) && LinksUpTo(sub, g.Keys, Links(g), |sub.testdata|)
  {
    g := map[];
    g := NewEntry(sub, nm, g, Summary);
    for i := 0 to |sub.testdata|
      invariant Built(sub, nm, g) && KeysUpTo(sub, g.Keys, i, 0) && LinksUpTo(sub, g.Keys, Links(g), i)
    {
      if sub.judgeBetweenStages {
        g := AddAlternating(sub, nm, g, i);
      } else {
        g := AddRuns(sub, nm, g, i);
      }
      ChainEnd(sub, g.Keys, Links(g), i);
      g := Link(sub, nm, g, Scoring(i, sub.stages - 1), Summary);
    }
  }

  /* ---- compilations ---- */

  /** The compilations added so far, with all their edges, beside the complete chains. */
  ghost predicate WithCompiles(sub: Submission, keys: set<Task>, links: set<(Task, Task)>, cs: set<CompileSubtask>)
    requires sub.stages >= 1
  {
    && (forall t :: t in keys <==> (IsTask(sub, t) && (t.Compile? ==> t.which in cs)))
    && (forall a, b :: (a, b) in links <==> (a in keys && Edge(sub, a, b)))
  }

  lemma ChainsComplete(sub: Submission, keys: set<Task>, links: set<(Task, Task)>)
    requires sub.stages >= 1
    requires KeysUpTo(sub, keys, |sub.testdata|, 0) && LinksUpTo(sub, keys, links, |sub.testdata|)
    ensures WithCompiles(sub, keys, links, {})
  {
  }

  /** Where the compilation of the user program, problem program or judge is awaited first. */
  function TargetOf(sub: Submission, c: CompileSubtask, i: nat): Task
    requires sub.stages >= 1
  {
    match c
    case USERPROG => Execute(i, FirstStage(sub, false, 0))
    case PROBPROG => Execute(i, FirstStage(sub, true, 0))
    case SPECJUDGE => Scoring(i, if sub.judgeBetweenStages then 0 else sub.stages - 1)
    case SUMMARY => Summary
  }

  lemma EdgesOfCompile(sub: Submission, c: CompileSubtask, b: Task)
    requires sub.stages >= 1 && IsTask(sub, Compile(c))
    ensures Edge(sub, Compile(c), b) <==>
            (if c.SUMMARY? || sub.testdata == [] then b == Summary
             else exists i: nat :: i < |sub.testdata| && b == TargetOf(sub, c, i))
  {
    if Edge(sub, Compile(c), b) && OfChain(b) { assert b == TargetOf(sub, c, b.td); }
  }

  function TargetLinks(sub: Submission, c: CompileSubtask, n: nat): set<(Task, Task)>
    requires sub.stages >= 1
  {
    set i: nat | i < n :: (Compile(c), TargetOf(sub, c, i))
  }

  lemma NoTargets(sub: Submission, c: CompileSubtask)
    requires sub.stages >= 1
    ensures TargetLinks(sub, c, 0) == {}
  {
  }

  lemma TargetFacts(sub: Submission, keys: set<Task>, links: set<(Task, Task)>, c: CompileSubtask,
                    cs: set<CompileSubtask>, i: nat)
    requires sub.stages >= 1 && IsTask(sub, Compile(c)) && c !in cs && !c.SUMMARY? && i < |sub.testdata|
    requires WithCompiles(sub, keys, links, cs)
    ensures TargetOf(sub, c, i) in keys && !TargetOf(sub, c, i).Compile?
    ensures (Compile(c), TargetOf(sub, c, i)) !in links + TargetLinks(sub, c, i)
    ensures TargetLinks(sub, c, i + 1) == TargetLinks(sub, c, i) + {(Compile(c), TargetOf(sub, c, i))}
  {
  }

  /** `for (auto& i : executes) Link(compile, i[...])` */
  method LinkTargets(sub: Submission, nm: Numbering, g0: map<Task, Entry>, c: CompileSubtask,
                     ghost keys: set<Task>, ghost links: set<(Task, Task)>, ghost cs: set<CompileSubtask>)
    returns (g: map<Task, Entry>)
    requires sub.stages >= 1 && IsTask(sub, Compile(c)) && c !in cs && !c.SUMMARY?
    requires WithCompiles(sub, keys, links, cs)
    requires Built(sub, nm, g0) && g0.Keys == keys + {Compile(c)} && Links(g0) == links
    ensures Built(sub, nm, g) && g.Keys == g0.Keys
    ensures Links(g) == links + TargetLinks(sub, c, |sub.testdata|)
  {
    NoTargets(sub, c);
    hide Built, WithCompiles, Links, TargetLinks, TargetOf;
    g := g0;
    for i := 0 to |sub.testdata|
      invariant Built(sub, nm, g) && g.Keys == g0.Keys
      invariant Links(g) == links + TargetLinks(sub, c, i)
    {
      TargetFacts(sub, keys, links, c, cs, i);
      g := Link(sub, nm, g, Compile(c), TargetOf(sub, c, i));
    }
  }

  lemma SummaryFree(sub: Submission, keys: set<Task>, links: set<(Task, Task)>, c: CompileSubtask,
                    cs: set<CompileSubtask>)
    requires sub.stages >= 1 && c !in cs && WithCompiles(sub, keys, links, cs)
    ensures Compile(c) !in keys && Summary in keys && (Compile(c), Summary) !in links
  {
  }

  /** A compilation and its links: to the summary if no testdata waits for it. */
  method AddCompile(sub: Submission, nm: Numbering, g0: map<Task, Entry>, c: CompileSubtask,
                    ghost cs: set<CompileSubtask>)
    returns (g: map<Task, Entry>)
    requires sub.stages >= 1 && IsTask(sub, Compile(c)) && c !in cs
    requires Built(sub, nm, g0) && WithCompiles(sub, g0.Keys, Links(g0), cs)
    ensures Built(sub, nm, g) && WithCompiles(sub, g.Keys, Links(g), cs + {c})
  {
    SummaryFree(sub, g0.Keys, Links(g0), c, cs);
    g := NewEntry(sub, nm, g0, Compile(c));
    if c.SUMMARY? || |sub.testdata| == 0 {
      g := Link(sub, nm, g, Compile(c), Summary);
    } else {
      g := LinkTargets(sub, nm, g, c, g0.Keys, Links(g0), cs);
    }
    CompileAdded(sub, g0.Keys, Links(g0), c, cs, g.Keys, Links(g));
  }

  lemma CompileAdded(sub: Submission, keys: set<Task>, links: set<(Task, Task)>, c: CompileSubtask,
                     cs: set<CompileSubtask>, keys': set<Task>, links': set<(Task, Task)>)
    requires sub.stages >= 1 && IsTask(sub, Compile(c)) && c !in cs && WithCompiles(sub, keys, links, cs)
    requires keys' == keys + {Compile(c)}
    requires links' == links + if c.SUMMARY? || sub.testdata == [] then {(Compile(c), Summary)}
                               else TargetLinks(sub, c, |sub.testdata|)
    ensures WithCompiles(sub, keys', links', cs + {c})
  {
    forall a, b ensures (a, b) in links' <==> (a in keys' && Edge(sub, a, b)) {
      if a == Compile(c) {
        EdgesOfCompile(sub, c, b);
      } else {
        assert (a, b) in links' <==> (a, b) in links;
      }
    }
  }

  /** The loop that looks for the first stage running the user program. */
  method FindFirstNonProblemStage(sub: Submission) returns (first: int)
    requires sub.stages >= 1
    ensures first == if FirstStage(sub, false, 0) < sub.stages then FirstStage(sub, false, 0) else -1
  {
    for i := 0 to sub.stages
      invariant FirstStage(sub, false, 0) == FirstStage(sub, false, i)
    {
      if i !in sub.problemProgStages { return i; }
    }
    return -1;
  }

  ghost predicate Follows(sub: Submission, nm: Numbering, g: map<Task, Entry>)
    requires sub.stages >= 1
  {
    && g.Keys == Lifecycle.AllTasks(sub)
    && (forall t :: t in g ==> EntryCounts(g, t) && g[t].priority == sub.priority && g[t].order == OrderOf(nm, t))
    && (forall t, b :: t in g ==> (b in g[t].edges <==> Edge(sub, t, b)))
  }

  lemma KeysAreTasks(sub: Submission, keys: set<Task>, links: set<(Task, Task)>)
    requires sub.stages >= 1 && WithCompiles(sub, keys, links, {USERPROG, PROBPROG, SPECJUDGE, SUMMARY})
    ensures keys == Lifecycle.AllTasks(sub)
    ensures forall a, b :: (a, b) in links <==> (a in keys && Edge(sub, a, b))
  {
    Lifecycle.AllTasksAreTasks(sub);
    forall t ensures t in keys <==> t in Lifecycle.AllTasks(sub) {
      assert t.Compile? ==> t.which in {USERPROG, PROBPROG, SPECJUDGE, SUMMARY};
    }
  }

  lemma GraphIsDone(sub: Submission, nm: Numbering, g: map<Task, Entry>)
    requires sub.stages >= 1 && Built(sub, nm, g)
    requires g.Keys == Lifecycle.AllTasks(sub)
    requires forall a, b :: (a, b) in Links(g) <==> (a in g.Keys && Edge(sub, a, b))
    ensures Follows(sub, nm, g)
  {
    forall t, b | t in g ensures b in g[t].edges <==> Edge(sub, t, b) {
      assert b in g[t].edges <==> (t, b) in Links(g);
    }
  }

  lemma NotNeeded(sub: Submission, keys: set<Task>, links: set<(Task, Task)>, c: CompileSubtask,
                  cs: set<CompileSubtask>)
    requires sub.stages >= 1 && !IsTask(sub, Compile(c)) && WithCompiles(sub, keys, links, cs)
    ensures WithCompiles(sub, keys, links, cs + {c})
  {
  }

  method AddCompileIf(wanted: bool, sub: Submission, nm: Numbering, g0: map<Task, Entry>, c: CompileSubtask,
                      ghost cs: set<CompileSubtask>)
    returns (g: map<Task, Entry>)
    requires sub.stages >= 1 && wanted == IsTask(sub, Compile(c)) && c !in cs
    requires Built(sub, nm, g0) && WithCompiles(sub, g0.Keys, Links(g0), cs)
    ensures Built(sub, nm, g) && WithCompiles(sub, g.Keys, Links(g), cs + {c})
  {
    if wanted {
      g := AddCompile(sub, nm, g0, c, cs);
    } else {
      NotNeeded(sub, g0.Keys, Links(g0), c, cs);
      g := g0;
    }
  }

  /** The entries of a submission: one for each task, with the edges of the dependency graph. */
  method BuildGraph(sub: Submission, nm: Numbering) returns (g: map<Task, Entry>)
    requires ValidSub(sub)
    ensures Follows(sub, nm, g)
  {
    hide Built, WithCompiles, KeysUpTo, LinksUpTo, Links, Follows, Lifecycle.AllTasks;
    g := AddChains(sub, nm);
    ChainsComplete(sub, g.Keys, Links(g));
    var firstNonProblem := FindFirstNonProblemStage(sub);
    g := AddCompileIf(firstNonProblem != -1, sub, nm, g, USERPROG, {});
    ProblemStages(sub);
    g := AddCompileIf(sub.problemProgStages != {}, sub, nm, g, PROBPROG, {USERPROG});
    g := AddCompileIf(!sub.specjudge.NORMAL?, sub, nm, g, SPECJUDGE, {USERPROG, PROBPROG});
    g := AddCompileIf(sub.customSummary, sub, nm, g, SUMMARY, {USERPROG, PROBPROG, SPECJUDGE});
    KeysAreTasks(sub, g.Keys, Links(g));
    GraphIsDone(sub, nm, g);
  }

  /** The first element of problem_prog_stages exists exactly when some stage runs the problem program. */
  lemma ProblemStages(sub: Submission)
    requires ValidSub(sub)
    ensures FirstStage(sub, true, 0) < sub.stages <==> sub.problemProgStages != {}
  {
    var first := FirstStage(sub, true, 0);
    if j :| j in sub.problemProgStages {
      assert 0 <= j < sub.stages;
      assert j < first ==> !((j in sub.problemProgStages) <==> true);
    }
  }
}
