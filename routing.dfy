/**
 * The handler's route table: the chain of conditions on the verb and the path segments
 * that picks one of the five operations, or none ("Route not found").
 */
module Routing {
  import opened Paths

  /** The operation a request is dispatched to; ids are the third path segment as given. */
  datatype Route =
    | ListTasks
    | GetTask(id: string)
    | CreateTask
    | UpdateTask(id: string)
    | DeleteTask(id: string)
    | NoRoute

  /** The HTTP method that reaches `r`. */
  function MethodOf(r: Route): string
    requires r != NoRoute
  {
    match r
    case ListTasks => "GET"
    case GetTask(_) => "GET"
    case CreateTask => "POST"
    case UpdateTask(_) => "PUT"
    case DeleteTask(_) => "DELETE"
  }

  /** The path segments that reach `r`: `/api/tasks` or `/api/tasks/:id`. */
  function SegmentsOf(r: Route): seq<string>
    requires r != NoRoute
  {
    match r
    case ListTasks => ["api", "tasks"]
    case CreateTask => ["api", "tasks"]
    case GetTask(id) => ["api", "tasks", id]
    case UpdateTask(id) => ["api", "tasks", id]
    case DeleteTask(id) => ["api", "tasks", id]
  }

  /** The dispatch chain, tried in the order the handler tries it. A route is only chosen
      for exactly its verb and its segments; `ClassifyComplete` gives the converse. */
  function Classify(verb: string, segs: seq<string>): (r: Route)
    ensures r != NoRoute ==> MethodOf(r) == verb && SegmentsOf(r) == segs
  {
    var collection := |segs| == 2 && segs[0] == "api" && segs[1] == "tasks";
    var item := |segs| == 3 && segs[0] == "api" && segs[1] == "tasks";
    if verb == "GET" && collection then ListTasks
    else if verb == "GET" && item then GetTask(segs[2])
    else if verb == "POST" && collection then CreateTask
    else if verb == "PUT" && item then UpdateTask(segs[2])
    else if verb == "DELETE" && item then DeleteTask(segs[2])
    else NoRoute
  }

  /** Every route is reached by its own verb and segments. */
  lemma ClassifyComplete(r: Route)
    requires r != NoRoute
    ensures Classify(MethodOf(r), SegmentsOf(r)) == r
  {
  }

  /** Together with `Classify`'s contract: a request reaches route `r` exactly when it has
      `r`'s verb and segments; everything else is "Route not found". */
  lemma ClassifyIff(verb: string, segs: seq<string>, r: Route)
    requires r != NoRoute
    ensures Classify(verb, segs) == r <==> verb == MethodOf(r) && segs == SegmentsOf(r)
  {
    if verb == MethodOf(r) && segs == SegmentsOf(r) {
      ClassifyComplete(r);
    }
  }

  /** An id the server reads back from a path as exactly one segment. */
  predicate IsPathId(id: string)
  {
    id != [] && Slash !in id
  }

  /** The routes a client can address by verb and URL. */
  predicate Addressable(r: Route)
  {
    && r != NoRoute
    && (r.GetTask? || r.UpdateTask? || r.DeleteTask? ==> IsPathId(r.id))
  }

  /** The URL that addresses `r`. */
  function UrlOf(r: Route): string
    requires r != NoRoute
  {
    PathOf(SegmentsOf(r))
  }

  /** Building a URL for a route and then segmenting and classifying it gives the route back. */
  lemma RouteRoundTrip(r: Route)
    requires Addressable(r)
    ensures Classify(MethodOf(r), Segments(UrlOf(r))) == r
  {
    var segs := SegmentsOf(r);
    assert Slash !in "api" && Slash !in "tasks";
    assert segs[..2] == ["api", "tasks"];
    forall i | 0 <= i < |segs| ensures segs[i] != [] && Slash !in segs[i] {
      if i < 2 {
        assert segs[i] == segs[..2][i];
      }
    }
    SegmentsOfPath(segs);
  }
}
