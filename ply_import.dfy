/**
 * Face triangulation of the PLY importer (importer/ply.cpp, setIndices): every face of k
 * indices is cut into the k - 2 triangles of a fan around its first index, and the triangle
 * indices are appended to the mesh's index list.
 */
module PlyImport {
  import opened PublicUtil
  import SceneModel

  /** The first n triangles of the fan of one face, each index converted to uint32_t. */
  function FanTriangles(face: seq<int>, n: nat): (r: seq<nat>)
    requires n + 2 <= |face|
    ensures |r| == 3 * n
  {
    if n == 0 then []
    else FanTriangles(face, n - 1) + [ToUint32(face[0]), ToUint32(face[n]), ToUint32(face[n + 1])]
  }

  /** The triangles of one face: k - 2 of them. */
  function FaceTriangles(face: seq<int>): (r: seq<nat>)
    requires |face| >= 3
    ensures |r| == 3 * (|face| - 2)
  {
    FanTriangles(face, |face| - 2)
  }

  /** The indices setIndices appends for the first `faces` faces of ipf indices each. */
  function Fan(ipf: nat, arr: seq<int>, faces: nat): (r: seq<nat>)
    requires ipf >= 3 && faces * ipf <= |arr|
    ensures |r| == 3 * (ipf - 2) * faces
  {
    if faces == 0 then []
    else
      MulLe(faces - 1, faces, ipf);
      Fan(ipf, arr, faces - 1) + FaceTriangles(arr[(faces - 1) * ipf..faces * ipf])
  }

  lemma MulLe(a: nat, b: nat, c: nat)
    requires a <= b
    ensures a * c <= b * c
  {
  }

  /** Triangle i of a face is its first index followed by indices i + 1 and i + 2. */
  lemma {:induction false} FanTriangleAt(face: seq<int>, n: nat, i: nat)
    requires n + 2 <= |face| && i < n
    ensures FanTriangles(face, n)[3 * i..3 * i + 3] == [ToUint32(face[0]), ToUint32(face[i + 1]), ToUint32(face[i + 2])]
  {
    var r := FanTriangles(face, n);
    if i < n - 1 {
      FanTriangleAt(face, n - 1, i);
      assert r[3 * i..3 * i + 3] == FanTriangles(face, n - 1)[3 * i..3 * i + 3];
    } else {
      assert r[3 * i..3 * i + 3] == r[|FanTriangles(face, n - 1)|..];
    }
  }

  /** The integers of the face buffer as setIndices pushes them. */
  function AsIndices(arr: seq<int>): (r: seq<nat>)
    ensures |r| == |arr| && forall j :: 0 <= j < |arr| ==> r[j] == ToUint32(arr[j])
  {
    seq(|arr|, j requires 0 <= j < |arr| => ToUint32(arr[j]))
  }

  /** No index is invented: every index of a face's fan is one of the face's own indices. */
  lemma {:induction false} FanTrianglesFromFace(face: seq<int>, n: nat)
    requires n + 2 <= |face|
    ensures forall x :: x in FanTriangles(face, n) ==> x in AsIndices(face)
  {
    if n > 0 {
      FanTrianglesFromFace(face, n - 1);
      var a := AsIndices(face);
      assert a[0] == ToUint32(face[0]) && a[n] == ToUint32(face[n]) && a[n + 1] == ToUint32(face[n + 1]);
    }
  }

  /** Every index setIndices appends is one of the buffer's indices. */
  lemma {:induction false} FanFromInput(ipf: nat, arr: seq<int>, faces: nat)
    requires ipf >= 3 && faces * ipf <= |arr|
    ensures forall x :: x in Fan(ipf, arr, faces) ==> x in AsIndices(arr)
  {
    if faces > 0 {
      MulLe(faces - 1, faces, ipf);
      FanFromInput(ipf, arr, faces - 1);
      var lo, hi := (faces - 1) * ipf, faces * ipf;
      var face := arr[lo..hi];
      FanTrianglesFromFace(face, |face| - 2);
      forall x | x in AsIndices(face)
        ensures x in AsIndices(arr)
      {
        var j :| 0 <= j < |face| && AsIndices(face)[j] == x;
        assert AsIndices(arr)[lo + j] == x;
      }
    }
  }

  /**
   * setIndices: for each face of the buffer (offset = 0, ipf, 2 ipf, ...), push the fan's
   * triangles onto the mesh's index list. The buffer holds whole faces of at least three
   * indices; the source does not guard against other counts.
   */
  method SetIndices(ipf: nat, arr: seq<int>, mesh: SceneModel.Mesh)
    requires ipf >= 3 && |arr| % ipf == 0
    modifies mesh`indices
    ensures mesh.indices == old(mesh.indices) + Fan(ipf, arr, |arr| / ipf)
  {
    var triangles := 1 + (ipf - 3);
    var indexCount := |arr|;
    var offset := 0;
    ghost var faces := 0;
    ghost var total := |arr| / ipf;
    DivExact(indexCount, ipf);
    while offset < indexCount
      invariant faces <= total && offset == faces * ipf
      invariant mesh.indices == old(mesh.indices) + Fan(ipf, arr, faces)
      decreases indexCount - offset
    {
      MulCompare(faces, total, ipf);
      FanStep(ipf, arr, faces, total);
      PushFace(arr, offset, ipf, triangles, mesh);
      offset := offset + ipf;
      faces := faces + 1;
    }
    MulCompare(faces, total, ipf);
  }

  /** The inner loop of setIndices: the triangles of the face at offset, pushed one index at a time. */
  method PushFace(arr: seq<int>, offset: nat, ipf: nat, triangles: nat, mesh: SceneModel.Mesh)
    requires ipf >= 3 && triangles == ipf - 2 && offset + ipf <= |arr|
    modifies mesh`indices
    ensures mesh.indices == old(mesh.indices) + FaceTriangles(arr[offset..offset + ipf])
  {
    ghost var face := arr[offset..offset + ipf];
    for i := 0 to triangles
      invariant mesh.indices == old(mesh.indices) + FanTriangles(face, i)
    {
      assert face[0] == arr[offset] && face[i + 1] == arr[offset + i + 1] && face[i + 2] == arr[offset + i + 2];
      mesh.indices := mesh.indices + [ToUint32(arr[offset + 0])];
      mesh.indices := mesh.indices + [ToUint32(arr[offset + i + 1])];
      mesh.indices := mesh.indices + [ToUint32(arr[offset + i + 2])];
    }
  }

  lemma MulCompare(a: nat, b: nat, c: nat)
    requires c > 0
    ensures a * c < b * c <==> a < b
  {
    if a < b {
      MulLe(a + 1, b, c);
    } else {
      MulLe(b, a, c);
    }
  }

  lemma DivExact(n: nat, d: nat)
    requires d > 0 && n % d == 0
    ensures (n / d) * d == n
  {
  }

  /** Face number `faces` is the next ipf indices, and its triangles extend the fan. */
  lemma FanStep(ipf: nat, arr: seq<int>, faces: nat, total: nat)
    requires ipf >= 3 && faces < total && total * ipf <= |arr|
    ensures faces * ipf + ipf <= |arr| && (faces + 1) * ipf <= |arr|
    ensures Fan(ipf, arr, faces + 1) == Fan(ipf, arr, faces) + FaceTriangles(arr[faces * ipf..faces * ipf + ipf])
  {
    NextFace(faces, total, ipf);
    var hi := (faces + 1) * ipf;
    assert hi == faces * ipf + ipf;
    assert Fan(ipf, arr, faces + 1) == Fan(ipf, arr, faces) + FaceTriangles(arr[faces * ipf..hi]);
  }

  /** Below the last face, the next face ends within the buffer. */
  lemma NextFace(faces: nat, total: nat, ipf: nat)
    requires faces < total
    ensures faces * ipf + ipf <= total * ipf && (faces + 1) * ipf == faces * ipf + ipf
  {
    MulLe(faces + 1, total, ipf);
    assert (faces + 1) * ipf == faces * ipf + ipf;
  }

  /** A quad becomes the two triangles (f0, f1, f2) and (f0, f2, f3). */
  lemma QuadFan(a: nat, b: nat, c: nat, d: nat)
    requires a < 0x1_0000_0000 && b < 0x1_0000_0000 && c < 0x1_0000_0000 && d < 0x1_0000_0000
    ensures FaceTriangles([a, b, c, d]) == [a, b, c, a, c, d]
  {
    assert FanTriangles([a, b, c, d], 1) == [a, b, c];
  }
}
