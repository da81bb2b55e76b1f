/**
  The main view: it holds the point cloud received from the service (and the
  original it can be reset to), shows it either as points (tab 0) or as a voxel
  grid (tab 1), and keeps the voxel grid as a lazily filled cache. Voxelization
  itself is outside this model: the view is given a `voxelize` function and
  relies on nothing but its being a function.
 */
module MainPanel {
  import opened Wrappers

  type Point = seq<real>
  type PointCloud = seq<Point>
  type VoxelGrid = seq<seq<seq<real>>>

  /** What the canvas is given to draw. */
  datatype Display = Points(cloud: PointCloud) | Voxels(grid: VoxelGrid)

  /**
    A JSON object of segments as the browser enumerates it: the keys in
    enumeration order and the value under each key.
   */
  datatype RawSegments = RawSegments(keys: seq<string>, entries: map<string, PointCloud>)
  {
    /** Each key is enumerated once, and exactly the object's keys are enumerated. */
    predicate WellFormed()
    {
      && (forall i, j :: 0 <= i < j < |keys| ==> keys[i] != keys[j])
      && entries.Keys == (set k | k in keys)
    }
  }

  type Segments = s: RawSegments | s.WellFormed() witness RawSegments([], map[])

  /** A sequence without repetitions has as many distinct elements as it is long. */
  lemma {:induction false} DistinctKeysCount(keys: seq<string>)
    requires forall i, j :: 0 <= i < j < |keys| ==> keys[i] != keys[j]
    ensures |set k | k in keys| == |keys|
  {
    if keys != [] {
      var last := keys[|keys| - 1];
      var init := keys[..|keys| - 1];
      DistinctKeysCount(init);
      assert (set k | k in keys) == (set k | k in init) + {last};
      assert last !in init;
    }
  }

  /** An enumerated object has exactly as many entries as enumerated keys. */
  lemma SegmentCount(e: Segments)
    ensures |e.entries| == |e.keys|
  {
    DistinctKeysCount(e.keys);
    assert e.entries.Keys == set k | k in e.keys;
  }

  /**
    The index the view reselects after new data arrives: the current tab when it
    is set and non-zero, and 0 otherwise, which is simply the current tab with 0
    as the default.
   */
  function ReselectIndex(currentTab: Option<int>): (index: int)
    ensures currentTab.Some? ==> index == currentTab.value
    ensures currentTab.None? ==> index == 0
  {
    if currentTab.Some? && currentTab.value != 0 then currentTab.value else 0
  }

  class MainView {
    /** The voxelization routine the view is built with. */
    const voxelize: PointCloud -> VoxelGrid

    var data: Option<Display>
    var origPoints: Option<PointCloud>
    var pointcloud: Option<PointCloud>
    var voxelgrid: Option<VoxelGrid>
    var currentTab: Option<int>
    var prediction: Option<string>

    /** How many times the view has called `voxelize`. */
    ghost var voxelizeCalls: nat

    /** The cache is empty or holds the voxelization of the current point cloud. */
    ghost predicate CacheValid()
      reads this
    {
      voxelgrid.Some? ==> pointcloud.Some? && voxelgrid.value == voxelize(pointcloud.value)
    }

    /** Once a point cloud is loaded, tabs 0 and 1 show it as points and as voxels. */
    ghost predicate DisplayValid()
      reads this
    {
      && (pointcloud.Some? && currentTab == Some(0) ==> data == Some(Points(pointcloud.value)))
      && (pointcloud.Some? && currentTab == Some(1) ==> data == Some(Voxels(voxelize(pointcloud.value))))
    }

    ghost predicate Valid()
      reads this
    {
      CacheValid() && DisplayValid()
    }

    /** A fresh view: nothing loaded, nothing shown, no tab chosen. */
    constructor(voxelize: PointCloud -> VoxelGrid)
      ensures Valid()
      ensures this.voxelize == voxelize
      ensures data == None && origPoints == None && pointcloud == None && voxelgrid == None
      ensures currentTab == None && prediction == None && voxelizeCalls == 0
    {
      this.voxelize := voxelize;
      data := None;
      origPoints := None;
      pointcloud := None;
      voxelgrid := None;
      currentTab := None;
      prediction := None;
      voxelizeCalls := 0;
    }

    /**
      `onSelectionChanged`: remember the tab; with a point cloud loaded, show it
      on tab 0 and its voxel grid on tab 1, voxelizing only when the cache is
      empty. Only the cache invariant is needed beforehand: selecting a tab
      re-establishes the display invariant.
     */
    method OnSelectionChanged(index: int)
      requires CacheValid()
      modifies this
      ensures Valid()
      ensures currentTab == Some(index)
      ensures pointcloud == old(pointcloud) && origPoints == old(origPoints) && prediction == old(prediction)
      ensures pointcloud.Some? && index == 0 ==> data == Some(Points(pointcloud.value)) && voxelgrid == old(voxelgrid)
      ensures pointcloud.Some? && index == 1 ==>
        data == Some(Voxels(voxelize(pointcloud.value))) && voxelgrid == Some(voxelize(pointcloud.value))
      ensures pointcloud.None? || (index != 0 && index != 1) ==> data == old(data) && voxelgrid == old(voxelgrid)
      ensures voxelizeCalls == old(voxelizeCalls) + (if pointcloud.Some? && index == 1 && old(voxelgrid).None? then 1 else 0)
    {
      currentTab := Some(index);
      if pointcloud.Some? && index == 0 {
        data := Some(Points(pointcloud.value));
      } else if pointcloud.Some? && index == 1 {
        if voxelgrid.None? {
          voxelgrid := Some(voxelize(pointcloud.value));
          voxelizeCalls := voxelizeCalls + 1;
        }
        data := Some(Voxels(voxelgrid.value));
      }
    }

    /** `ngOnChanges`: reselect the current tab (0 when none is set) and clear the prediction. */
    method NgOnChanges()
      requires CacheValid()
      modifies this
      ensures Valid()
      ensures currentTab == Some(ReselectIndex(old(currentTab)))
      ensures pointcloud == old(pointcloud) && origPoints == old(origPoints)
      ensures prediction == None
      ensures voxelgrid == if pointcloud.Some? && currentTab == Some(1) then Some(voxelize(pointcloud.value)) else old(voxelgrid)
      ensures voxelizeCalls
        == old(voxelizeCalls) + (if pointcloud.Some? && currentTab == Some(1) && old(voxelgrid).None? then 1 else 0)
      ensures pointcloud.None? || (currentTab != Some(0) && currentTab != Some(1)) ==> data == old(data)
    {
      OnSelectionChanged(ReselectIndex(currentTab));
      prediction := None;
    }

    /**
      The subscription to the service's point clouds: the new cloud becomes both
      the original and the current cloud, and the cache is emptied before the
      tab is reselected.
     */
    method OnPointCloud(cloud: Option<PointCloud>)
      requires Valid()
      modifies this
      ensures Valid()
      ensures origPoints == cloud && pointcloud == cloud
      ensures currentTab == Some(ReselectIndex(old(currentTab)))
      ensures voxelgrid == if cloud.Some? && currentTab == Some(1) then Some(voxelize(cloud.value)) else None
      ensures prediction == None
      ensures voxelizeCalls == old(voxelizeCalls) + (if voxelgrid.Some? then 1 else 0)
      ensures cloud.None? || (currentTab != Some(0) && currentTab != Some(1)) ==> data == old(data)
    {
      origPoints := cloud;
      pointcloud := cloud;
      voxelgrid := None;
      NgOnChanges();
    }

    /** `onOutputPoints`: show the given cloud, voxelizing it at once to refill the cache. */
    method OnOutputPoints(cloud: PointCloud)
      requires Valid()
      modifies this
      ensures Valid()
      ensures pointcloud == Some(cloud) && origPoints == old(origPoints) && prediction == old(prediction)
      ensures voxelgrid == Some(voxelize(cloud))
      ensures currentTab == Some(ReselectIndex(old(currentTab)))
      ensures voxelizeCalls == old(voxelizeCalls) + 1
      ensures currentTab != Some(0) && currentTab != Some(1) ==> data == old(data)
    {
      pointcloud := Some(cloud);
      voxelgrid := Some(voxelize(cloud));
      voxelizeCalls := voxelizeCalls + 1;
      OnSelectionChanged(ReselectIndex(currentTab));
    }

    /** `onReset`: go back to the original cloud received from the service. */
    method OnReset()
      requires Valid()
      requires origPoints.Some?
      modifies this
      ensures Valid()
      ensures origPoints == old(origPoints) && pointcloud == origPoints
      ensures voxelgrid == Some(voxelize(origPoints.value))
      ensures currentTab == Some(ReselectIndex(old(currentTab)))
      ensures prediction == old(prediction) && voxelizeCalls == old(voxelizeCalls) + 1
      ensures currentTab != Some(0) && currentTab != Some(1) ==> data == old(data)
    {
      OnOutputPoints(origPoints.value);
    }

    /** `onPrediction`: remember the prediction text. */
    method OnPrediction(e: string)
      requires Valid()
      modifies this`prediction
      ensures Valid()
      ensures prediction == Some(e)
    {
      prediction := Some(e);
    }

    /**
      `onSegmented`: the list handed on holds, for each key in enumeration
      order, the value under that key.
     */
    method OnSegmented(e: Segments) returns (segs: seq<PointCloud>)
      ensures |segs| == |e.keys| == |e.entries|
      ensures forall i :: 0 <= i < |segs| ==> segs[i] == e.entries[e.keys[i]]
      ensures forall k :: k in e.entries ==> e.entries[k] in segs
    {
      segs := [];
      for i := 0 to |e.keys|
        invariant |segs| == i
        invariant forall j :: 0 <= j < i ==> segs[j] == e.entries[e.keys[j]]
      {
        segs := segs + [e.entries[e.keys[i]]];
      }
      SegmentCount(e);
      forall k | k in e.entries ensures e.entries[k] in segs {
        var j :| 0 <= j < |e.keys| && e.keys[j] == k;
        assert segs[j] == e.entries[k];
      }
    }
  }

  /** Selecting the voxel tab twice voxelizes exactly once from an empty cache and not at all from a filled one. */
  method SelectVoxelTabTwice(view: MainView)
    requires view.Valid() && view.pointcloud.Some?
    modifies view
    ensures view.Valid() && view.pointcloud == old(view.pointcloud)
    ensures view.currentTab == Some(1) && view.voxelgrid == Some(view.voxelize(view.pointcloud.value))
    ensures view.origPoints == old(view.origPoints) && view.prediction == old(view.prediction)
    ensures view.voxelizeCalls <= old(view.voxelizeCalls) + 1
    ensures old(view.voxelgrid).Some? ==> view.voxelizeCalls == old(view.voxelizeCalls)
    ensures old(view.voxelgrid).None? ==> view.voxelizeCalls == old(view.voxelizeCalls) + 1
    ensures view.data == Some(Voxels(view.voxelize(view.pointcloud.value)))
  {
    view.OnSelectionChanged(1);
    view.OnSelectionChanged(1);
  }
}
