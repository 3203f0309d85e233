/**
 * The task list: how a database query response becomes the widget's task
 * records (App.jsx:128-143), how the selected task is looked up (App.jsx:37)
 * and how a successful increment rewrites the list (App.jsx:145-165).
 */
module Tasks {
  import opened Wrappers

  /** The parts of a query response the widget reads; `None` is an absent field. */
  datatype RichText = RichText(plainText: string)
  datatype TitleProperty = TitleProperty(title: Option<seq<RichText>>)
  /** `number` is `None` when the property holds no number. */
  datatype NumberProperty = NumberProperty(number: Option<int>)
  datatype StatusOption = StatusOption(name: Option<string>)
  datatype StatusProperty = StatusProperty(status: Option<StatusOption>)
  datatype Properties = Properties(
    name: Option<TitleProperty>,
    planned: Option<NumberProperty>,
    finished: Option<NumberProperty>,
    status: Option<StatusProperty>)
  datatype Page = Page(id: string, properties: Option<Properties>)
  datatype QueryResponse = QueryResponse(results: Option<seq<Page>>)

  /** `{ id, name, planned, finished, status }` (App.jsx:34, App.jsx:135). */
  datatype Task = Task(id: string, name: string, planned: int, finished: int, status: string)

  /** `title.map(t => t.plain_text).join("")`. */
  function JoinPlainText(ts: seq<RichText>): (s: string)
    ensures s == [] <==> forall i :: 0 <= i < |ts| ==> ts[i].plainText == []
  {
    if ts == [] then [] else
      var rest := JoinPlainText(ts[1..]);
      assert forall i :: 1 <= i < |ts| ==> ts[i] == ts[1..][i - 1];
      ts[0].plainText + rest
  }

  /** The joined title of the "Name" property, `""` when any step of the path is absent. */
  function TitleText(props: Option<Properties>): string
  {
    match props
    case Some(Properties(Some(TitleProperty(Some(ts))), _, _, _)) => JoinPlainText(ts)
    case _ => ""
  }

  /** The display name: the title, or "Untitled" when it is empty or missing. */
  function TaskName(props: Option<Properties>): (name: string)
    ensures name != ""
    ensures TitleText(props) != "" ==> name == TitleText(props)
    ensures TitleText(props) == "" ==> name == "Untitled"
  {
    var t := TitleText(props);
    if t == "" then "Untitled" else t
  }

  /** `numberVal` (App.jsx:139-143): the property's number, 0 when there is none. */
  function NumberVal(p: Option<NumberProperty>): (n: int)
    ensures p.Some? && p.value.number.Some? ==> n == p.value.number.value
    ensures n != 0 ==> p.Some? && p.value.number == Some(n)
  {
    match p
    case None => 0
    case Some(q) => q.number.GetOr(0)
  }

  function PlannedProperty(props: Option<Properties>): Option<NumberProperty>
  {
    match props
    case Some(p) => p.planned
    case None => None
  }

  function FinishedProperty(props: Option<Properties>): Option<NumberProperty>
  {
    match props
    case Some(p) => p.finished
    case None => None
  }

  /** `props["Status"]?.status?.name || ""`. */
  function StatusName(props: Option<Properties>): (s: string)
    ensures s != "" ==>
      (props.Some? && props.value.status.Some? && props.value.status.value.status.Some? &&
       props.value.status.value.status.value.name == Some(s))
    ensures (props.Some? && props.value.status.Some? && props.value.status.value.status.Some? &&
             props.value.status.value.status.value.name.Some?) ==>
      s == props.value.status.value.status.value.name.value
  {
    match props
    case Some(Properties(_, _, _, Some(StatusProperty(Some(StatusOption(Some(n))))))) => n
    case _ => ""
  }

  /** The number property is present and holds the number `n`. */
  predicate Carries(p: Option<NumberProperty>, n: int)
  {
    p.Some? && p.value.number == Some(n)
  }

  /** One page of the response as a task (App.jsx:129-136). */
  function ParseTask(page: Page): (t: Task)
    ensures t.id == page.id
    ensures t.name != ""
    ensures TitleText(page.properties) != "" ==> t.name == TitleText(page.properties)
    ensures TitleText(page.properties) == "" ==> t.name == "Untitled"
    ensures forall n :: Carries(PlannedProperty(page.properties), n) ==> t.planned == n
    ensures t.planned != 0 ==> Carries(PlannedProperty(page.properties), t.planned)
    ensures forall n :: Carries(FinishedProperty(page.properties), n) ==> t.finished == n
    ensures t.finished != 0 ==> Carries(FinishedProperty(page.properties), t.finished)
    ensures t.status == StatusName(page.properties)
  {
    var props := page.properties;
    Task(page.id, TaskName(props), NumberVal(PlannedProperty(props)),
         NumberVal(FinishedProperty(props)), StatusName(props))
  }

  /** `data.results || []`. */
  function ResultPages(data: QueryResponse): seq<Page>
  {
    data.results.GetOr([])
  }

  /** The `.map` over the pages: one task per page, in order. */
  function ParseAll(pages: seq<Page>): (ts: seq<Task>)
    ensures |ts| == |pages|
    ensures forall i :: 0 <= i < |pages| ==> ts[i] == ParseTask(pages[i])
  {
    if pages == [] then [] else [ParseTask(pages[0])] + ParseAll(pages[1..])
  }

  /** `parseTasks` (App.jsx:128-137): keeps the length, the order and the ids of the pages. */
  function ParseTasks(data: QueryResponse): (ts: seq<Task>)
    ensures data.results.None? ==> ts == []
    ensures |ts| == |ResultPages(data)|
    ensures forall i :: 0 <= i < |ts| ==> ts[i].id == ResultPages(data)[i].id && ts[i].name != ""
    ensures forall i :: 0 <= i < |ts| ==> ts[i] == ParseTask(ResultPages(data)[i])
  {
    ParseAll(ResultPages(data))
  }

  /** `i` is the position of the first task with this id. */
  ghost predicate FirstMatch(tasks: seq<Task>, id: string, i: int)
  {
    0 <= i < |tasks| && tasks[i].id == id && forall j :: 0 <= j < i ==> tasks[j].id != id
  }

  /** `tasks.find(t => t.id === id)`: the first task with the id, if any. */
  function Find(tasks: seq<Task>, id: string): (r: Option<Task>)
    ensures r.Some? <==> exists i :: 0 <= i < |tasks| && tasks[i].id == id
    ensures r.Some? ==> exists i :: FirstMatch(tasks, id, i) && r.value == tasks[i]
  {
    if tasks == [] then None
    else if tasks[0].id == id then
      assert FirstMatch(tasks, id, 0);
      Some(tasks[0])
    else
      var r := Find(tasks[1..], id);
      assert forall i :: 1 <= i < |tasks| ==> tasks[i] == tasks[1..][i - 1];
      assert r.Some? ==> exists i :: FirstMatch(tasks, id, i) && r.value == tasks[i] by {
        if r.Some? {
          var k :| FirstMatch(tasks[1..], id, k) && r.value == tasks[1..][k];
          assert FirstMatch(tasks, id, k + 1);
        }
      }
      r
  }

  /** `(t?.finished || 0) + 1` for the first task with the id (App.jsx:148-149). */
  function NextFinished(tasks: seq<Task>, id: string): (v: int)
    ensures forall i :: FirstMatch(tasks, id, i) ==> v == tasks[i].finished + 1
    ensures (forall i :: 0 <= i < |tasks| ==> tasks[i].id != id) ==> v == 1
  {
    match Find(tasks, id)
    case Some(t) => t.finished + 1
    case None => 1
  }

  /**
   * `prev.map(x => x.id === id ? { ...x, finished: v } : x)` (App.jsx:161):
   * every task with the id gets `finished == v`; nothing else changes.
   */
  function SetFinished(tasks: seq<Task>, id: string, v: int): (r: seq<Task>)
    ensures |r| == |tasks|
    ensures forall i :: 0 <= i < |tasks| && tasks[i].id == id ==> r[i] == tasks[i].(finished := v)
    ensures forall i :: 0 <= i < |tasks| && tasks[i].id != id ==> r[i] == tasks[i]
  {
    if tasks == [] then []
    else
      var head := if tasks[0].id == id then tasks[0].(finished := v) else tasks[0];
      [head] + SetFinished(tasks[1..], id, v)
  }

  ghost predicate DistinctIds(tasks: seq<Task>)
  {
    forall i, j :: 0 <= i < j < |tasks| ==> tasks[i].id != tasks[j].id
  }

  /** When ids are unique, a successful increment adds exactly one to that task's count. */
  lemma IncrementDistinct(tasks: seq<Task>, id: string, i: int)
    requires DistinctIds(tasks)
    requires 0 <= i < |tasks| && tasks[i].id == id
    ensures SetFinished(tasks, id, NextFinished(tasks, id))[i] == tasks[i].(finished := tasks[i].finished + 1)
  {
  }

  /**
   * After an increment the selection resolves as before: to the updated copy
   * of the same task when it has the id, and to the unchanged task otherwise.
   */
  lemma {:induction false} FindAfterSetFinished(tasks: seq<Task>, id: string, v: int, sel: string)
    ensures Find(SetFinished(tasks, id, v), sel) ==
      match Find(tasks, sel)
      case Some(t) => Some(if sel == id then t.(finished := v) else t)
      case None => None
    decreases |tasks|
  {
    if tasks != [] {
      var r := SetFinished(tasks, id, v);
      assert r[1..] == SetFinished(tasks[1..], id, v);
      FindAfterSetFinished(tasks[1..], id, v, sel);
    }
  }

  /** A load keeps ids, so the selection resolves afterwards exactly when a returned page has its id. */
  lemma FindInParsed(data: QueryResponse, sel: string)
    ensures Find(ParseTasks(data), sel).Some? <==>
      exists i :: 0 <= i < |ResultPages(data)| && ResultPages(data)[i].id == sel
  {
  }
}
