/** The `Point` record shared by all six programs: an id, its attribute values,
    the number of attributes, the current cluster (or the unassigned
    sentinel) and an optional display name. */
module Points {
  import opened Vectors

  /** The cluster id of a point that no cluster has claimed yet. */
  const Unassigned: int := -1

  datatype Point = Point(id: int, values: Vec, totalAttr: int, cluster: int, name: string)
  {
    /** The point's attribute count agrees with its value vector. */
    predicate WellFormed() {
      totalAttr == |values|
    }

    /** `setCluster`: only the cluster field changes. */
    function SetCluster(c: int): (q: Point)
      ensures q.cluster == c
      ensures q.id == id && q.values == values && q.totalAttr == totalAttr && q.name == name
    {
      this.(cluster := c)
    }
  }

  /** The constructor `Point(id_point, values, name)`: it records the number of
      attributes, copies the values one at a time, and leaves the point
      unassigned. */
  method NewPoint(id: int, values: Vec, name: string) returns (p: Point)
    ensures p.WellFormed()
    ensures p.id == id && p.name == name
    ensures p.cluster == Unassigned
    ensures p.totalAttr == |values|
    ensures p.values == values
  {
    var totalAttr := |values|;
    var copy: Vec := [];
    var i := 0;
    while i < totalAttr
      invariant 0 <= i <= totalAttr
      invariant copy == values[..i]
    {
      copy := copy + [values[i]];
      i := i + 1;
    }
    p := Point(id, copy, totalAttr, Unassigned, name);
  }
}
