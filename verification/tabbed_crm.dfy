/** The tabbed CRM panel of a task: whether the panel is visible for the
    task in context, how a "load components" broadcast changes its list of
    custom tabs, how a "select tab" broadcast picks a tab, the composed tab
    sequence, and the values the built-in "Senior Info" tab shows. React
    state, listeners and rendering are left to the caller: each handler is a
    function from the old state and the payload to the new state. */
module TabbedCrm {
  import opened Shared
  import StableSort

  /** The attributes of a task that the panel reads. */
  datatype TaskAttributes = TaskAttributes(parentTask: Option<string>, seniorData: Option<SeniorData>, body: Option<string>)

  /** A task as the panel sees it: its reservation SID, its task SID and its
      attributes. */
  datatype Task = Task(sid: string, taskSid: string, attributes: TaskAttributes)

  /** The CSS `display` of the panel. */
  datatype Display = Flex | Hidden

  /** A component type to render inside a tab, by identity only. */
  datatype ComponentRef = ComponentRef(id: nat)

  /** A tab contributed by a feature; `order` is optional. */
  datatype CrmComponent = CrmComponent(title: string, component: ComponentRef, order: Option<int>)

  /** The payload of the load-components broadcast. */
  datatype LoadPayload = LoadPayload(task: Option<Task>, components: Option<seq<CrmComponent>>)

  /** `task?.taskSid`: undefined when there is no task. */
  function TaskSidOf(t: Option<Task>): Option<string> {
    match t
    case None => None
    case Some(task) => Some(task.taskSid)
  }

  /** The panel is shown when the context task is this panel's task (two
      absent tasks compare equal), or when this task exists and the context
      task names it as its parent. */
  function Visibility(thisTask: Option<Task>, ctx: Option<Task>): (r: Display)
    ensures ctx == thisTask ==> r == Flex
    ensures thisTask.None? != ctx.None? ==> r == Hidden
    ensures thisTask.Some? && ctx.Some? && ctx.value.attributes.parentTask == Some(thisTask.value.sid) ==> r == Flex
  {
    if TaskSidOf(ctx) == TaskSidOf(thisTask)
       || (thisTask.Some? && ctx.Some? && ctx.value.attributes.parentTask == Some(thisTask.value.sid))
    then Flex
    else Hidden
  }

  /** Visibility case by case: the panel of the task in context is shown; a
      short-lived child task (one naming this task as `parentTask`) keeps it
      shown; an unrelated task, or exactly one of the two tasks being absent,
      hides it. */
  lemma VisibilityCases(thisTask: Option<Task>, ctx: Option<Task>)
    ensures thisTask.None? && ctx.None? ==> Visibility(thisTask, ctx) == Flex
    ensures thisTask.None? != ctx.None? ==> Visibility(thisTask, ctx) == Hidden
    ensures thisTask.Some? && ctx.Some? ==>
      (Visibility(thisTask, ctx) == Flex <==>
         ctx.value.taskSid == thisTask.value.taskSid
         || ctx.value.attributes.parentTask == Some(thisTask.value.sid))
    ensures thisTask.Some? ==> Visibility(thisTask, thisTask) == Flex
  {
  }

  // ------------------------------------------------------------- custom tabs

  /** A component's sort key: its order, or 999 when it has none. */
  function OrderRank(c: CrmComponent): int {
    c.order.GetOr(999)
  }

  /** The load-components listener: a broadcast for another task, or one
      without a component array, changes nothing; otherwise the stored list
      is replaced by the payload's components sorted by order. */
  function HandleLoad(thisTask: Option<Task>, current: Option<seq<CrmComponent>>, p: LoadPayload)
    : (r: Option<seq<CrmComponent>>)
    ensures TaskSidOf(p.task) != TaskSidOf(thisTask) ==> r == current
    ensures p.components.None? ==> r == current
    ensures TaskSidOf(p.task) == TaskSidOf(thisTask) && p.components.Some? ==>
      r.Some? && StableSort.IsStableSort(p.components.value, r.value, OrderRank)
  {
    if TaskSidOf(p.task) != TaskSidOf(thisTask) then current
    else if p.components.None? then current
    else Some(StableSort.Sort(p.components.value, OrderRank))
  }

  /** A matching load replaces rather than merges: the result does not depend
      on the list held before, it is a permutation of the payload's
      components, and it is the stable sort of them by order. */
  lemma HandleLoadReplaces(thisTask: Option<Task>, before1: Option<seq<CrmComponent>>,
                           before2: Option<seq<CrmComponent>>, p: LoadPayload)
    requires TaskSidOf(p.task) == TaskSidOf(thisTask) && p.components.Some?
    ensures HandleLoad(thisTask, before1, p) == HandleLoad(thisTask, before2, p)
    ensures multiset(HandleLoad(thisTask, before1, p).value) == multiset(p.components.value)
    ensures HandleLoad(thisTask, before1, p).value == StableSort.Sort(p.components.value, OrderRank)
  {
  }

  /** After a matching load, components without an order come after every
      component whose order is below 999, and before every component whose
      order is above it. */
  lemma UnorderedSortLast(thisTask: Option<Task>, before: Option<seq<CrmComponent>>, p: LoadPayload)
    requires TaskSidOf(p.task) == TaskSidOf(thisTask) && p.components.Some?
    ensures var r := HandleLoad(thisTask, before, p).value;
      forall i, j :: 0 <= i < |r| && 0 <= j < |r| && r[i].order.None? && r[j].order.Some? ==>
        (r[j].order.value < 999 ==> j < i) && (r[j].order.value > 999 ==> i < j)
  {
    var r := HandleLoad(thisTask, before, p).value;
    forall i, j | 0 <= i < |r| && 0 <= j < |r| && r[i].order.None? && r[j].order.Some?
      ensures (r[j].order.value < 999 ==> j < i) && (r[j].order.value > 999 ==> i < j)
    {
      if i < j {
        assert OrderRank(r[i]) <= OrderRank(r[j]);
      } else if j < i {
        assert OrderRank(r[j]) <= OrderRank(r[i]);
      }
    }
  }

  // -------------------------------------------------------------- tab choice

  /** The tab key of a component. */
  function TabKey(title: string): string {
    "crm-tab-" + title
  }

  /** The select-tab listener: an empty or missing title leaves the selection
      alone; any other title selects the tab keyed by it. */
  function HandleSelect(selected: Option<string>, title: Option<string>): (r: Option<string>)
    ensures !Truthy(title) ==> r == selected
    ensures Truthy(title) ==>
      r.Some? && |r.value| == 8 + |title.value| && r.value[..8] == "crm-tab-" && r.value[8..] == title.value
  {
    if Truthy(title) then Some(TabKey(title.value)) else selected
  }

  // ------------------------------------------------------------- composition

  /** The built-in first tab. */
  const SeniorInfoRef := ComponentRef(0)
  const SeniorInfoTab := CrmComponent("Senior Info", SeniorInfoRef, Some(0))

  /** The tabs rendered: "Senior Info", then the stored custom components. */
  function AllComponents(custom: Option<seq<CrmComponent>>): (r: seq<CrmComponent>)
    ensures |r| >= 1 && r[0].title == "Senior Info"
  {
    [SeniorInfoTab] + custom.GetOr([])
  }

  /** After a matching load the tabs are "Senior Info" followed by the
      payload's components in stable order-sorted order. "Senior Info" stays
      first even when a custom component carries an order below its own 0:
      it is never sorted with the custom tabs. */
  lemma TabsAfterLoad(thisTask: Option<Task>, before: Option<seq<CrmComponent>>, p: LoadPayload)
    requires TaskSidOf(p.task) == TaskSidOf(thisTask) && p.components.Some?
    ensures var tabs := AllComponents(HandleLoad(thisTask, before, p));
      && tabs[0] == SeniorInfoTab
      && StableSort.IsStableSort(p.components.value, tabs[1..], OrderRank)
      && |tabs| == |p.components.value| + 1
  {
    var tabs := AllComponents(HandleLoad(thisTask, before, p));
    assert tabs[1..] == HandleLoad(thisTask, before, p).value;
    StableSort.StableSortIsPermutation(p.components.value, tabs[1..], OrderRank);
    assert |multiset(tabs[1..])| == |multiset(p.components.value)|;
  }

  /** The React `key` strings the tabs are rendered with, one per tab, in tab
      order. These are reconciliation keys, not tab ids. */
  function TabKeys(custom: Option<seq<CrmComponent>>): (r: seq<string>)
    ensures |r| == |AllComponents(custom)|
    ensures forall i :: 0 <= i < |r| ==> r[i] == TabKey(AllComponents(custom)[i].title)
  {
    var tabs := AllComponents(custom);
    seq(|tabs|, i requires 0 <= i < |tabs| => TabKey(tabs[i].title))
  }

  /** For a rendered tab with a non-empty title, the id the select listener
      passes to the tab state is the same string as that tab's React `key`;
      distinct titles give distinct ids. Whether the tab widget has a tab with
      that id depends on how it assigns ids, which is not modelled. */
  lemma SelectMatchesTabKey(selected: Option<string>, custom: Option<seq<CrmComponent>>, i: nat, t2: string)
    requires i < |AllComponents(custom)| && AllComponents(custom)[i].title != ""
    ensures var title := AllComponents(custom)[i].title;
      && HandleSelect(selected, Some(title)) == Some(TabKeys(custom)[i])
      && HandleSelect(selected, Some(title)).value in TabKeys(custom)
      && (t2 != title ==> TabKey(t2) != TabKey(title))
  {
    var title := AllComponents(custom)[i].title;
    assert TabKey(t2)[8..] == t2;
    assert TabKey(title)[8..] == title;
  }

  /** With no stored list (before any load) only "Senior Info" is rendered;
      with a list, it follows "Senior Info" unchanged. */
  lemma AllComponentsShape(custom: Option<seq<CrmComponent>>)
    ensures custom.None? ==> AllComponents(custom) == [SeniorInfoTab]
    ensures custom.Some? ==> AllComponents(custom)[1..] == custom.value
  {
  }

  // ------------------------------------------------------ Senior Info panel

  /** What the "Senior Info" tab shows. */
  datatype SeniorPanel =
    | NoActiveTask
    | SeniorInfo(name: string, age: string, address: string, message: Option<string>)

  /** The "Senior Info" tab: destructuring defaults replace a field only when
      it is missing, so an empty string is shown as it is. */
  function SeniorInfoPanel(thisTask: Option<Task>): (r: SeniorPanel)
    ensures thisTask.None? <==> r.NoActiveTask?
    ensures thisTask.Some? ==> r.message == thisTask.value.attributes.body
    ensures thisTask.Some? && thisTask.value.attributes.seniorData.None? ==>
      r.name == "Unknown" && r.age == "N/A" && r.address == "N/A"
  {
    match thisTask
    case None => NoActiveTask
    case Some(t) =>
      var sd := t.attributes.seniorData.GetOr(EmptySeniorData);
      SeniorInfo(sd.name.GetOr("Unknown"), sd.age.GetOr("N/A"), sd.address.GetOr("N/A"), t.attributes.body)
  }

  /** Each field shown is the stored field when present and its default
      ('Unknown' for the name, 'N/A' otherwise) when missing, including when
      the whole senior record is missing. */
  lemma SeniorInfoDefaults(t: Task)
    ensures var p := SeniorInfoPanel(Some(t));
      var sd := t.attributes.seniorData;
      && p.SeniorInfo?
      && p.message == t.attributes.body
      && (sd.None? ==> p.name == "Unknown" && p.age == "N/A" && p.address == "N/A")
      && (sd.Some? && sd.value.name.Some? ==> p.name == sd.value.name.value)
      && (sd.Some? && sd.value.name.None? ==> p.name == "Unknown")
      && (sd.Some? && sd.value.age.Some? ==> p.age == sd.value.age.value)
      && (sd.Some? && sd.value.age.None? ==> p.age == "N/A")
      && (sd.Some? && sd.value.address.Some? ==> p.address == sd.value.address.value)
      && (sd.Some? && sd.value.address.None? ==> p.address == "N/A")
  {
  }
}
