/**
 * Instance-buffer preparation (`prepare_instance_buffers`): every frame each
 * entity's instances are copied, sorted back to front by squared distance to
 * the camera and installed as a fresh `InstanceBuffer`; an entity with no
 * instances loses its buffer; without a camera nothing happens.
 */
module BufferPreparation {
  import opened Wrappers
  import opened StableSort
  import opened VoxelPlot

  /** The sort key of the back-to-front sort: squared distance from the camera. */
  function DistanceKey(cameraPosition: Vec3): InstanceData -> real {
    instance => DistanceSquared(cameraPosition, Position(instance))
  }

  /**
   * What one entity ends the pass with, for a camera at `cameraPosition`:
   * no buffer for an empty list, otherwise a buffer of the list sorted
   * farthest-first whose `length` is the number of instances.
   */
  function PreparedBuffer(cameraPosition: Vec3, instances: seq<InstanceData>): (r: Option<InstanceBuffer>)
    ensures r.None? <==> |instances| == 0
    ensures r.Some? ==> r.value.buffer.InstanceVertexBuffer? && r.value.length == |r.value.buffer.contents| == |instances|
  {
    if |instances| == 0 then None
    else
      var sorted := SortDesc(instances, DistanceKey(cameraPosition));
      Some(InstanceBuffer(InstanceVertexBuffer(sorted), |sorted|))
  }

  /**
   * The installed buffer holds exactly the entity's instances (as a
   * multiset), farthest from the camera first, instances at equal distance in
   * their original order, and `length` counts them.
   */
  lemma PreparedBufferIsBackToFront(cameraPosition: Vec3, instances: seq<InstanceData>)
    requires |instances| > 0
    ensures PreparedBuffer(cameraPosition, instances).Some?
    ensures var b := PreparedBuffer(cameraPosition, instances).value;
      && b.length == |instances|
      && multiset(b.buffer.contents) == multiset(instances)
      && (forall i, j :: 0 <= i < j < |b.buffer.contents| ==>
            DistanceSquared(cameraPosition, Position(b.buffer.contents[i]))
              >= DistanceSquared(cameraPosition, Position(b.buffer.contents[j])))
      && (forall d :: KeyFilter(b.buffer.contents, DistanceKey(cameraPosition), d)
                   == KeyFilter(instances, DistanceKey(cameraPosition), d))
  {
    var key := DistanceKey(cameraPosition);
    var sorted := SortDesc(instances, key);
    SortDescIsSorted(instances, key);
    forall i, j | 0 <= i < j < |sorted|
      ensures DistanceSquared(cameraPosition, Position(sorted[i])) >= DistanceSquared(cameraPosition, Position(sorted[j]))
    {
      assert key(sorted[i]) >= key(sorted[j]);
    }
    forall d ensures KeyFilter(sorted, key, d) == KeyFilter(instances, key, d) {
      SortDescIsStable(instances, key, d);
    }
  }

  /**
   * Copies `instances` into a fresh vector and sorts it in place, farthest
   * from the camera first; the caller's list is left alone.
   */
  method SortBackToFront(cameraPosition: Vec3, instances: seq<InstanceData>) returns (sorted: seq<InstanceData>)
    ensures sorted == SortDesc(instances, DistanceKey(cameraPosition))
  {
    var buffer := new InstanceData[|instances|](k requires 0 <= k < |instances| => instances[k]);
    assert buffer[..] == instances;
    SortDescInPlace(buffer, DistanceKey(cameraPosition));
    sorted := buffer[..];
  }

  /**
   * The render world as `prepare_instance_buffers` sees it: the extracted
   * `InstanceMaterialData` components and the `InstanceBuffer` components,
   * both keyed by entity.
   */
  class RenderWorld {
    var instanceMaterials: map<Entity, InstanceMaterialData>
    var instanceBuffers: map<Entity, InstanceBuffer>

    constructor (materials: map<Entity, InstanceMaterialData>, buffers: map<Entity, InstanceBuffer>)
      ensures instanceMaterials == materials && instanceBuffers == buffers
    {
      instanceMaterials := materials;
      instanceBuffers := buffers;
    }

    /**
     * One preparation pass. `camera` is the world position of the first
     * extracted view, if there is one. The instance components are never
     * changed: each list is copied before it is sorted. Entities without an
     * `InstanceMaterialData` keep whatever buffer they had.
     */
    method PrepareInstanceBuffers(camera: Option<Vec3>)
      modifies this
      ensures instanceMaterials == old(instanceMaterials)
      ensures camera.None? ==> instanceBuffers == old(instanceBuffers)
      ensures camera.Some? ==> forall e :: e in instanceMaterials ==>
        Lookup(instanceBuffers, e) == PreparedBuffer(camera.value, instanceMaterials[e].instances)
      ensures forall e :: e !in instanceMaterials ==>
        Lookup(instanceBuffers, e) == Lookup(old(instanceBuffers), e)
    {
      if camera.None? {
        return;
      }
      var cameraPosition := camera.value;
      var todo := instanceMaterials.Keys;
      while todo != {}
        invariant todo <= instanceMaterials.Keys
        invariant instanceMaterials == old(instanceMaterials)
        invariant forall e :: e in instanceMaterials && e !in todo ==>
          Lookup(instanceBuffers, e) == PreparedBuffer(cameraPosition, instanceMaterials[e].instances)
        invariant forall e :: e !in instanceMaterials || e in todo ==>
          Lookup(instanceBuffers, e) == Lookup(old(instanceBuffers), e)
        decreases todo
      {
        var entity :| entity in todo;
        var instances := instanceMaterials[entity].instances;
        if |instances| == 0 {
          instanceBuffers := instanceBuffers - {entity};
        } else {
          var sortedInstances := SortBackToFront(cameraPosition, instances);
          instanceBuffers := instanceBuffers[entity := InstanceBuffer(InstanceVertexBuffer(sortedInstances), |sortedInstances|)];
        }
        todo := todo - {entity};
      }
    }
  }

  /**
   * Three instances on the x axis at 0, 1 and 2 with a camera at x = 10 are
   * already farthest-first, so the buffer holds them in that order and has
   * length 3.
   */
  lemma ThreeInstancesScenario(c0: Vec4, c1: Vec4, c2: Vec4)
    ensures var i0, i1, i2 :=
        InstanceData(Vec4(0.0, 0.0, 0.0, 1.0), c0),
        InstanceData(Vec4(1.0, 0.0, 0.0, 1.0), c1),
        InstanceData(Vec4(2.0, 0.0, 0.0, 1.0), c2);
      PreparedBuffer(Vec3(10.0, 0.0, 0.0), [i0, i1, i2])
        == Some(InstanceBuffer(InstanceVertexBuffer([i0, i1, i2]), 3))
  {
    var i0, i1, i2 :=
      InstanceData(Vec4(0.0, 0.0, 0.0, 1.0), c0),
      InstanceData(Vec4(1.0, 0.0, 0.0, 1.0), c1),
      InstanceData(Vec4(2.0, 0.0, 0.0, 1.0), c2);
    var key := DistanceKey(Vec3(10.0, 0.0, 0.0));
    var s := [i0, i1, i2];
    assert key(i0) == 100.0 && key(i1) == 81.0 && key(i2) == 64.0;
    assert SortedDesc(s, key);
    SortDescOfSorted(s, key);
  }
}
