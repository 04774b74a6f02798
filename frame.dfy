/** The per-frame update: the elapsed time is written into both animated
    shader uniforms, and, once the scene is ready, every point-of-interest
    label gets its visibility and its screen translation. */
module Frame {
  import Occlusion
  import ScreenSpace

  /** What a frame writes into one label element: the `visible` class and the translation. */
  datatype Label = Label(visible: bool, tx: real, ty: real)

  /** What the camera projection and the ray cast report for one point in this frame. */
  datatype Probe = Probe(ndcX: real, ndcY: real, hits: seq<real>, pointDistance: real)

  /** The label a ready frame gives a point. */
  function Resolve(p: Probe, width: real, height: real): Label {
    var t := ScreenSpace.Translation(p.ndcX, p.ndcY, width, height);
    Label(Occlusion.IsVisible(p.hits, p.pointDistance), t.x, t.y)
  }

  /** A ready frame hides a label exactly when some hit lies strictly in front of its point,
      and places it at the translation of its device coordinates. */
  lemma ResolveMeaning(p: Probe, width: real, height: real)
    requires Occlusion.Sorted(p.hits)
    ensures Resolve(p, width, height).visible <==> !Occlusion.Occluded(p.hits, p.pointDistance)
    ensures Resolve(p, width, height).tx == p.ndcX * width * 0.5
    ensures Resolve(p, width, height).ty == -p.ndcY * height * 0.5
  {
    Occlusion.VisibleIffNotOccluded(p.hits, p.pointDistance);
  }

  /** The translation does not depend on occlusion: two probes at the same device coordinates
      get the same position whether or not either label is visible. */
  lemma PositionIgnoresOcclusion(p: Probe, q: Probe, width: real, height: real)
    requires p.ndcX == q.ndcX && p.ndcY == q.ndcY
    ensures Resolve(p, width, height).tx == Resolve(q, width, height).tx
    ensures Resolve(p, width, height).ty == Resolve(q, width, height).ty
  {
  }

  /** The scene's frame state: the readiness flag, the two time uniforms and the labels. */
  class Scene {
    var isSceneReady: bool
    var glassBrickTime: real
    var projectorTime: real
    const labels: array<Label>

    constructor (labels: array<Label>)
      ensures !isSceneReady
      ensures glassBrickTime == 0.0 && projectorTime == 0.0
      ensures this.labels == labels
    {
      isSceneReady := false;
      glassBrickTime := 0.0;
      projectorTime := 0.0;
      this.labels := labels;
    }

    /** The delayed callback after all assets have loaded; the only write to the flag. */
    method MarkReady()
      modifies this
      ensures isSceneReady
      ensures glassBrickTime == old(glassBrickTime) && projectorTime == old(projectorTime)
      ensures labels[..] == old(labels[..])
    {
      isSceneReady := true;
    }

    /** One frame. `probes[i]` is what projection and ray casting report for label `i`. */
    method Tick(elapsedTime: real, probes: seq<Probe>, width: real, height: real)
      requires |probes| == labels.Length
      modifies this, labels
      ensures isSceneReady == old(isSceneReady)
      ensures glassBrickTime == elapsedTime && projectorTime == elapsedTime
      ensures !isSceneReady ==> labels[..] == old(labels[..])
      ensures isSceneReady ==> forall i :: 0 <= i < labels.Length ==> labels[i] == Resolve(probes[i], width, height)
    {
      glassBrickTime := elapsedTime;
      projectorTime := elapsedTime;

      if isSceneReady {
        var i := 0;
        while i < labels.Length
          modifies labels
          invariant 0 <= i <= labels.Length
          invariant forall j :: 0 <= j < i ==> labels[j] == Resolve(probes[j], width, height)
        {
          var p := probes[i];
          var visible;
          if |p.hits| == 0 {
            visible := true;
          } else {
            var intersectionDistance := p.hits[0];
            if intersectionDistance < p.pointDistance {
              visible := false;
            } else {
              visible := true;
            }
          }
          var translateX := p.ndcX * width * 0.5;
          var translateY := -p.ndcY * height * 0.5;
          labels[i] := Label(visible, translateX, translateY);
          i := i + 1;
        }
      }
    }
  }
}
