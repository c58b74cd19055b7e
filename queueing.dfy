/**
 * Queueing (`queue_custom`): for every extracted view that has a transparent
 * render phase, and every entity carrying instance data whose mesh-queue data
 * and GPU mesh both resolve, one `Transparent3d` phase item is added to that
 * view's phase. Views without a phase and entities that do not resolve are
 * skipped; a failing pipeline specialization is unwrapped and so panics.
 */
module Queueing {
  import opened Wrappers
  import opened VoxelPlot

  /** The retained identity of a view, the key of the per-view phases. */
  datatype RetainedViewEntity = RetainedViewEntity(index: nat)

  /** An extracted view together with its `Msaa` component. */
  datatype View = View(retainedViewEntity: RetainedViewEntity, msaaSamples: nat, hdr: bool)

  /** One result of the entity query: the render entity and its main-world entity. */
  datatype MaterialMesh = MaterialMesh(entity: Entity, mainEntity: MainEntity)

  datatype DrawFunctionId = DrawFunctionId(index: nat)

  datatype PipelineId = PipelineId(index: nat)

  datatype ExtraIndex = NoExtraIndex | DynamicOffset(offset: nat) | IndirectParametersIndex(range: Range)

  /** A transparent 3D phase item. */
  datatype Transparent3d = Transparent3d(
    entity: Entity,
    mainEntity: MainEntity,
    pipeline: PipelineId,
    drawFunction: DrawFunctionId,
    distance: real,
    batchRange: Range,
    extraIndex: ExtraIndex,
    indexed: bool)

  /**
   * What the system reads besides the views and entities: the id of
   * `DrawCustom`, the mesh-queue data by main entity, the GPU meshes by asset
   * id, the pipeline specializer (`SpecializedMeshPipelines::specialize`,
   * deterministic for a key and layout) and the view's rangefinder
   * (`distance_translation`).
   */
  datatype QueueContext = QueueContext(
    drawCustom: DrawFunctionId,
    renderMeshInstances: map<MainEntity, MeshQueueData>,
    meshes: map<MeshAssetId, RenderMesh>,
    specialize: (MeshPipelineKey, MeshVertexBufferLayout) -> Result<PipelineId, PipelineError>,
    distance: (View, Vec3) -> real)

  /** Both lookups of the inner loop succeed for `m`. */
  predicate Resolves(m: MaterialMesh, ctx: QueueContext) {
    m.mainEntity in ctx.renderMeshInstances && ctx.renderMeshInstances[m.mainEntity].meshAssetId in ctx.meshes
  }

  /** The pipeline key for a view and a mesh: MSAA samples, HDR and the mesh's topology. */
  function PipelineKey(view: View, mesh: RenderMesh): (key: MeshPipelineKey)
    ensures key.msaaSamples == view.msaaSamples && key.hdr == view.hdr
    ensures key.primitiveTopology == mesh.primitiveTopology
  {
    MeshPipelineKey(view.msaaSamples, view.hdr, mesh.primitiveTopology)
  }

  /**
   * What one pass of the inner loop does for entity `m` in `view`: nothing
   * when a lookup fails, a panic when specialization fails, and otherwise the
   * item it adds.
   */
  function EntityOutcome(view: View, m: MaterialMesh, ctx: QueueContext): (r: Option<Result<Transparent3d, PipelineError>>)
    ensures r.Some? <==> Resolves(m, ctx)
    ensures r.Some? ==>
      var queueData := ctx.renderMeshInstances[m.mainEntity];
      var mesh := ctx.meshes[queueData.meshAssetId];
      var pipeline := ctx.specialize(PipelineKey(view, mesh), mesh.layout);
      && (r.value.Failure? <==> pipeline.Failure?)
      && (r.value.Failure? ==> r.value.error == pipeline.error)
      && (r.value.Success? ==>
            var item := r.value.value;
            && item.entity == m.entity && item.mainEntity == m.mainEntity
            && item.pipeline == pipeline.value
            && item.drawFunction == ctx.drawCustom
            && item.distance == ctx.distance(view, queueData.translation)
            && item.batchRange == Range(0, 1)
            && item.extraIndex == NoExtraIndex
            && !item.indexed)
  {
    match Lookup(ctx.renderMeshInstances, m.mainEntity)
    case None => None
    case Some(queueData) =>
      match Lookup(ctx.meshes, queueData.meshAssetId)
      case None => None
      case Some(mesh) =>
        match ctx.specialize(PipelineKey(view, mesh), mesh.layout)
        case Failure(e) => Some(Failure(e))
        case Success(pipeline) =>
          Some(Success(Transparent3d(m.entity, m.mainEntity, pipeline, ctx.drawCustom,
                                     ctx.distance(view, queueData.translation), Range(0, 1), NoExtraIndex, false)))
  }

  /** Entity `m` makes the inner loop panic in `view`. */
  predicate EntityFails(view: View, m: MaterialMesh, ctx: QueueContext) {
    var r := EntityOutcome(view, m, ctx);
    r.Some? && r.value.Failure?
  }

  /** The entities of `s` that resolve, in query order. */
  function Resolved(s: seq<MaterialMesh>, ctx: QueueContext): (r: seq<MaterialMesh>)
    ensures |r| <= |s|
    ensures forall k :: 0 <= k < |r| ==> Resolves(r[k], ctx) && r[k] in s
    ensures forall i :: 0 <= i < |s| && Resolves(s[i], ctx) ==> s[i] in r
  {
    if |s| == 0 then []
    else
      var prev := Resolved(s[..|s| - 1], ctx);
      assert forall i :: 0 <= i < |s| - 1 ==> s[..|s| - 1][i] == s[i];
      if Resolves(s[|s| - 1], ctx) then prev + [s[|s| - 1]] else prev
  }

  /**
   * The items the inner loop adds for `view` over the entities `s`, in order,
   * or the error that stops it.
   */
  function ViewItems(view: View, s: seq<MaterialMesh>, ctx: QueueContext): Result<seq<Transparent3d>, PipelineError> {
    if |s| == 0 then Success([])
    else
      var prev := ViewItems(view, s[..|s| - 1], ctx);
      if prev.Failure? then prev
      else
        match EntityOutcome(view, s[|s| - 1], ctx)
        case None => prev
        case Some(Failure(e)) => Failure(e)
        case Some(Success(item)) => Success(prev.value + [item])
  }

  /**
   * The phases after the outer loop has run over `views`, starting from
   * `phases0`, or the error of the first failing specialization. A view whose
   * retained entity has no phase adds nothing; the set of phases never changes.
   */
  function QueuePhases(phases0: map<RetainedViewEntity, seq<Transparent3d>>, views: seq<View>,
                       s: seq<MaterialMesh>, ctx: QueueContext): (r: Result<map<RetainedViewEntity, seq<Transparent3d>>, PipelineError>)
    ensures r.Success? ==> r.value.Keys == phases0.Keys
  {
    if |views| == 0 then Success(phases0)
    else
      var prev := QueuePhases(phases0, views[..|views| - 1], s, ctx);
      var view := views[|views| - 1];
      if prev.Failure? || view.retainedViewEntity !in prev.value then prev
      else
        var items := ViewItems(view, s, ctx);
        if items.Failure? then Failure(items.error)
        else Success(prev.value[view.retainedViewEntity := prev.value[view.retainedViewEntity] + items.value])
  }

  /**
   * For one view, the inner loop adds exactly one item per resolving entity,
   * in query order, the one `EntityOutcome` describes, unless a resolving
   * entity's specialization fails.
   */
  lemma {:induction false} ViewItemsMatchResolved(view: View, s: seq<MaterialMesh>, ctx: QueueContext)
    ensures ViewItems(view, s, ctx).Success? <==>
      forall k :: 0 <= k < |Resolved(s, ctx)| ==> EntityOutcome(view, Resolved(s, ctx)[k], ctx).value.Success?
    ensures ViewItems(view, s, ctx).Success? ==>
      var items, r := ViewItems(view, s, ctx).value, Resolved(s, ctx);
      && |items| == |r|
      && forall k :: 0 <= k < |r| ==> items[k] == EntityOutcome(view, r[k], ctx).value.value
  {
    if |s| > 0 {
      var s', last := s[..|s| - 1], s[|s| - 1];
      ViewItemsMatchResolved(view, s', ctx);
      var r', r := Resolved(s', ctx), Resolved(s, ctx);
      if Resolves(last, ctx) {
        assert r == r' + [last];
        if EntityOutcome(view, last, ctx).value.Failure? {
          assert !EntityOutcome(view, r[|r'|], ctx).value.Success?;
        }
      } else {
        assert r == r';
      }
    }
  }

  /** The inner loop panics exactly when some entity fails. */
  lemma {:induction false} ViewItemsFailIff(view: View, s: seq<MaterialMesh>, ctx: QueueContext)
    ensures ViewItems(view, s, ctx).Failure? <==> exists k :: 0 <= k < |s| && EntityFails(view, s[k], ctx)
  {
    if |s| > 0 {
      var s' := s[..|s| - 1];
      ViewItemsFailIff(view, s', ctx);
      if ViewItems(view, s', ctx).Failure? {
        var k :| 0 <= k < |s'| && EntityFails(view, s'[k], ctx);
        assert s[k] == s'[k];
      } else if !EntityFails(view, s[|s| - 1], ctx) {
        forall k | 0 <= k < |s| ensures !EntityFails(view, s[k], ctx) {
          if k < |s'| {
            assert s[k] == s'[k];
          }
        }
      }
    }
  }

  /** Once the inner loop has failed on a prefix it fails on the whole query. */
  lemma {:induction false} ViewItemsFailurePersists(view: View, s: seq<MaterialMesh>, j: nat, ctx: QueueContext)
    requires j <= |s| && ViewItems(view, s[..j], ctx).Failure?
    ensures ViewItems(view, s, ctx).Failure?
    decreases |s|
  {
    if j < |s| {
      var s' := s[..|s| - 1];
      assert s'[..j] == s[..j];
      ViewItemsFailurePersists(view, s', j, ctx);
    } else {
      assert s[..j] == s;
    }
  }

  /** Once the outer loop has failed on a prefix of the views it fails on all of them. */
  lemma {:induction false} QueuePhasesFailurePersists(phases0: map<RetainedViewEntity, seq<Transparent3d>>, views: seq<View>,
                                                      i: nat, s: seq<MaterialMesh>, ctx: QueueContext)
    requires i <= |views| && QueuePhases(phases0, views[..i], s, ctx).Failure?
    ensures QueuePhases(phases0, views, s, ctx).Failure?
    decreases |views|
  {
    if i < |views| {
      var views' := views[..|views| - 1];
      assert views'[..i] == views[..i];
      QueuePhasesFailurePersists(phases0, views', i, s, ctx);
    } else {
      assert views[..i] == views;
    }
  }

  /**
   * The system panics exactly when some view that has a phase meets some
   * entity whose specialization fails.
   */
  lemma {:induction false} QueuePanicsIff(phases0: map<RetainedViewEntity, seq<Transparent3d>>, views: seq<View>,
                                          s: seq<MaterialMesh>, ctx: QueueContext)
    ensures QueuePhases(phases0, views, s, ctx).Failure? <==>
      exists i, k :: 0 <= i < |views| && 0 <= k < |s| && views[i].retainedViewEntity in phases0 && EntityFails(views[i], s[k], ctx)
  {
    if |views| > 0 {
      var views' := views[..|views| - 1];
      var view := views[|views| - 1];
      QueuePanicsIff(phases0, views', s, ctx);
      ViewItemsFailIff(view, s, ctx);
      if QueuePhases(phases0, views', s, ctx).Failure? {
        var i, k :| 0 <= i < |views'| && 0 <= k < |s| && views'[i].retainedViewEntity in phases0 && EntityFails(views'[i], s[k], ctx);
        assert views[i] == views'[i];
      } else if view.retainedViewEntity in phases0 && ViewItems(view, s, ctx).Failure? {
        var k :| 0 <= k < |s| && EntityFails(view, s[k], ctx);
        assert views[|views| - 1] == view;
      } else {
        forall i, k | 0 <= i < |views| && 0 <= k < |s| && views[i].retainedViewEntity in phases0
          ensures !EntityFails(views[i], s[k], ctx)
        {
          if i < |views'| {
            assert views[i] == views'[i];
          }
        }
      }
    }
  }

  /** No two views share a retained view entity. */
  predicate DistinctViews(views: seq<View>) {
    forall i, j :: 0 <= i < j < |views| ==> views[i].retainedViewEntity != views[j].retainedViewEntity
  }

  /**
   * With distinct views, each view that has a phase gets its own items appended
   * to what the phase held, and a phase that no view names is left as it was.
   */
  lemma {:induction false} QueuedPerView(phases0: map<RetainedViewEntity, seq<Transparent3d>>, views: seq<View>,
                                         s: seq<MaterialMesh>, ctx: QueueContext)
    requires DistinctViews(views)
    requires QueuePhases(phases0, views, s, ctx).Success?
    ensures var p := QueuePhases(phases0, views, s, ctx).value;
      && (forall i :: 0 <= i < |views| && views[i].retainedViewEntity in phases0 ==>
            ViewItems(views[i], s, ctx).Success?
            && p[views[i].retainedViewEntity] == phases0[views[i].retainedViewEntity] + ViewItems(views[i], s, ctx).value)
      && (forall e :: e in phases0 && (forall i :: 0 <= i < |views| ==> views[i].retainedViewEntity != e) ==> p[e] == phases0[e])
  {
    if |views| > 0 {
      var views' := views[..|views| - 1];
      var view := views[|views| - 1];
      assert DistinctViews(views') by {
        forall i, j | 0 <= i < j < |views'| ensures views'[i].retainedViewEntity != views'[j].retainedViewEntity {
          assert views'[i] == views[i] && views'[j] == views[j];
        }
      }
      assert QueuePhases(phases0, views', s, ctx).Success?;
      QueuedPerView(phases0, views', s, ctx);
      var p', p := QueuePhases(phases0, views', s, ctx).value, QueuePhases(phases0, views, s, ctx).value;
      forall i | 0 <= i < |views| && views[i].retainedViewEntity in phases0
        ensures ViewItems(views[i], s, ctx).Success?
        ensures p[views[i].retainedViewEntity] == phases0[views[i].retainedViewEntity] + ViewItems(views[i], s, ctx).value
      {
        if i < |views'| {
          assert views[i] == views'[i];
          assert views[i].retainedViewEntity != view.retainedViewEntity;
        } else {
          assert views[i] == view;
          forall i' | 0 <= i' < |views'| ensures views'[i'].retainedViewEntity != view.retainedViewEntity {
            assert views'[i'] == views[i'];
          }
        }
      }
      forall e | e in phases0 && (forall i :: 0 <= i < |views| ==> views[i].retainedViewEntity != e)
        ensures p[e] == phases0[e]
      {
        forall i | 0 <= i < |views'| ensures views'[i].retainedViewEntity != e {
          assert views'[i] == views[i];
        }
        assert view == views[|views| - 1];
      }
    }
  }

  /** The per-view transparent render phases (`ViewSortedRenderPhases<Transparent3d>`). */
  class TransparentPhases {
    var phases: map<RetainedViewEntity, seq<Transparent3d>>

    constructor (initial: map<RetainedViewEntity, seq<Transparent3d>>)
      ensures phases == initial
    {
      phases := initial;
    }

    /**
     * One run of the queueing system. `views` and `s` are the two queries in
     * iteration order. Returns `panicked` when a specialization error was
     * unwrapped; the phases are then left as they were at the panic, which the
     * model does not describe further.
     */
    method QueueCustom(views: seq<View>, s: seq<MaterialMesh>, ctx: QueueContext) returns (panicked: bool)
      modifies this
      ensures panicked <==> QueuePhases(old(phases), views, s, ctx).Failure?
      ensures !panicked ==> phases == QueuePhases(old(phases), views, s, ctx).value
    {
      var i := 0;
      while i < |views|
        invariant 0 <= i <= |views|
        invariant QueuePhases(old(phases), views[..i], s, ctx) == Success(phases)
      {
        var view := views[i];
        assert views[..i + 1][..i] == views[..i] && views[..i + 1][i] == view;
        if view.retainedViewEntity in phases {
          var phaseKey := view.retainedViewEntity;
          ghost var before := phases;
          ghost var added: seq<Transparent3d> := [];
          assert before[phaseKey] + added == before[phaseKey];
          var j := 0;
          while j < |s|
            invariant 0 <= j <= |s|
            invariant ViewItems(view, s[..j], ctx) == Success(added)
            invariant phases == before[phaseKey := before[phaseKey] + added]
          {
            var m := s[j];
            assert s[..j + 1][..j] == s[..j] && s[..j + 1][j] == m;
            var queueData := Lookup(ctx.renderMeshInstances, m.mainEntity);
            if queueData.Some? {
              var mesh := Lookup(ctx.meshes, queueData.value.meshAssetId);
              if mesh.Some? {
                var key := PipelineKey(view, mesh.value);
                var pipeline := ctx.specialize(key, mesh.value.layout);
                if pipeline.Failure? {
                  ViewItemsFailurePersists(view, s, j + 1, ctx);
                  QueuePhasesFailurePersists(old(phases), views, i + 1, s, ctx);
                  return true;
                }
                var item := Transparent3d(m.entity, m.mainEntity, pipeline.value, ctx.drawCustom,
                                          ctx.distance(view, queueData.value.translation), Range(0, 1), NoExtraIndex, false);
                assert (before[phaseKey] + added) + [item] == before[phaseKey] + (added + [item]);
                phases := phases[phaseKey := phases[phaseKey] + [item]];
                added := added + [item];
              }
            }
            j := j + 1;
          }
          assert s[..j] == s;
        }
        i := i + 1;
      }
      assert views[..i] == views;
      return false;
    }
  }
}
