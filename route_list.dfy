/** The draggable route list (components/RouteList.tsx). */
module RouteList {
  import opened Common
  import opened Seqs
  import opened Places
  import opened RouteSequence

  /** `handleDragEnd`: None when the drop has no destination (`onReorder` is
      not called); otherwise the one list `onReorder` is called with: the
      dragged point moved and every role recomputed. */
  method HandleDragEnd(route: seq<RoutePoint>, source: nat, destination: Option<nat>)
    returns (reordered: Option<seq<RoutePoint>>)
    requires source < |route| && (destination.Some? ==> destination.value < |route|)
    ensures reordered.None? <==> destination.None?
    ensures reordered.Some? ==> reordered.value == Retag(Moved(route, source, destination.value))
  {
    if destination.None? {
      return None;
    }
    var items := MoveAndRetag(route, source, destination.value);
    return Some(items);
  }
}
