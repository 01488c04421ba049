/** The roadmap screen: a generated roadmap starts with every milestone
    open, the header shows how many are completed, and each checkbox toggles
    its own milestone. */
module RoadmapTab {
  import opened Wrappers
  import opened AiStream
  import opened MentorContext

  /** `data.roadmap.map(m => ({ ...m, completed: false }))` */
  function ResetCompleted(data: seq<RoadmapMilestone>): (r: seq<RoadmapMilestone>)
    ensures |r| == |data|
    ensures forall i :: 0 <= i < |r| ==>
      && r[i].title == data[i].title && r[i].description == data[i].description
      && r[i].resources == data[i].resources && !r[i].completed
  {
    seq(|data|, i requires 0 <= i < |data| => data[i].(completed := false))
  }

  /** `roadmap.filter(m => m.completed).length` */
  function CompletedCount(roadmap: seq<RoadmapMilestone>): (n: nat)
    ensures n <= |roadmap|
  {
    if roadmap == [] then 0
    else CompletedCount(roadmap[..|roadmap| - 1]) + if roadmap[|roadmap| - 1].completed then 1 else 0
  }

  /** The count is the number of completed milestones: none completed gives
      zero, all completed gives the length. */
  lemma {:induction false} CompletedCountExtremes(roadmap: seq<RoadmapMilestone>)
    ensures (forall i :: 0 <= i < |roadmap| ==> !roadmap[i].completed) ==> CompletedCount(roadmap) == 0
    ensures (forall i :: 0 <= i < |roadmap| ==> roadmap[i].completed) ==> CompletedCount(roadmap) == |roadmap|
  {
    if roadmap != [] {
      var init := roadmap[..|roadmap| - 1];
      CompletedCountExtremes(init);
      assert forall i :: 0 <= i < |init| ==> init[i] == roadmap[i];
    }
  }

  /** A freshly generated roadmap has nothing completed. */
  lemma GeneratedHasNoneCompleted(data: seq<RoadmapMilestone>)
    ensures CompletedCount(ResetCompleted(data)) == 0
  {
    CompletedCountExtremes(ResetCompleted(data));
  }

  /** The count with one milestone changed. */
  lemma {:induction false} CompletedCountUpdate(roadmap: seq<RoadmapMilestone>, i: nat, m: RoadmapMilestone)
    requires i < |roadmap|
    ensures CompletedCount(roadmap[i := m]) ==
      CompletedCount(roadmap) - (if roadmap[i].completed then 1 else 0) + (if m.completed then 1 else 0)
  {
    var n := |roadmap|;
    var r := roadmap[i := m];
    if i < n - 1 {
      assert r[..n - 1] == roadmap[..n - 1][i := m];
      CompletedCountUpdate(roadmap[..n - 1], i, m);
    } else {
      assert r[..n - 1] == roadmap[..n - 1];
    }
  }

  /** Ticking a checkbox moves the count by exactly one. */
  lemma ToggleMovesCountByOne(roadmap: seq<RoadmapMilestone>, i: nat)
    requires i < |roadmap|
    ensures CompletedCount(Toggled(roadmap, i)) ==
      if roadmap[i].completed then CompletedCount(roadmap) - 1 else CompletedCount(roadmap) + 1
  {
    var m := roadmap[i].(completed := !roadmap[i].completed);
    assert Toggled(roadmap, i) == roadmap[i := m];
    CompletedCountUpdate(roadmap, i, m);
  }

  /** One row of the list: the index its checkbox toggles, and the milestone. */
  datatype Row = Row(index: int, milestone: RoadmapMilestone)

  /** What the screen shows: the generation prompt, or the count and the
      rows. */
  datatype View = GeneratePrompt | Milestones(completed: nat, total: nat, rows: seq<Row>)

  function ViewOf(roadmap: seq<RoadmapMilestone>): (v: View)
    ensures v.GeneratePrompt? <==> roadmap == []
    ensures v.Milestones? ==>
      && v.completed == CompletedCount(roadmap) <= v.total == |roadmap| == |v.rows|
      && forall k :: 0 <= k < |v.rows| ==> 0 <= v.rows[k].index < |roadmap| && v.rows[k].milestone == roadmap[v.rows[k].index]
  {
    if |roadmap| == 0 then GeneratePrompt
    else Milestones(CompletedCount(roadmap), |roadmap|, seq(|roadmap|, i requires 0 <= i < |roadmap| => Row(i, roadmap[i])))
  }

  /** The checkbox of a row flips that row's milestone and no other. */
  lemma CheckboxTogglesItsRow(roadmap: seq<RoadmapMilestone>, k: nat)
    requires ViewOf(roadmap).Milestones? && k < |ViewOf(roadmap).rows|
    ensures var row := ViewOf(roadmap).rows[k];
      var after := Toggled(roadmap, row.index);
      && after[k].completed == !roadmap[k].completed
      && forall j :: 0 <= j < |roadmap| && j != k ==> after[j] == roadmap[j]
  {
  }

  /** `generate`: on success the roadmap is replaced by the returned one with
      every milestone open; on failure it is kept and the message returned. */
  method Generate(ctx: MentorProvider, resp: Response, decode: string -> Result<seq<RoadmapMilestone>>, parseError: ErrorParser)
    returns (error: Option<string>)
    modifies ctx
    ensures var r := InvokeFunction(resp, decode, parseError);
      && (r.Ok? ==> ctx.roadmap == ResetCompleted(r.value) && error == None)
      && (r.Err? ==> ctx.roadmap == old(ctx.roadmap) && error == Some(r.message))
    ensures ctx.interest == old(ctx.interest) && ctx.level == old(ctx.level)
    ensures ctx.chatsByDomain == old(ctx.chatsByDomain) && ctx.quizResults == old(ctx.quizResults)
    ensures ctx.topicsExplored == old(ctx.topicsExplored)
  {
    var r := InvokeFunction(resp, decode, parseError);
    if r.Ok? {
      ctx.SetRoadmap(ResetCompleted(r.value));
      error := None;
    } else {
      error := Some(r.message);
    }
  }
}
