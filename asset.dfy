/**
 * The reference-counted asset registry of engine/core/HAssetRsrcManager.cpp
 * and the mesh-count getters of HAssetRsrcManager.h.  An asset is known by
 * its GUID, the CRC-32 of its path name's C string, and an asset object is
 * an opaque handle.  Loading from disk and `delete` are not modelled.
 */
module Asset {
  import Crc32

  /** An `HAsset*`, as an opaque handle. */
  type AssetHandle = nat

  /** An `HAsset*` as `GetAssetPtr` writes it: null or an asset. */
  datatype AssetPtr = Null | Ptr(handle: AssetHandle)

  /** 2^32: `AssetWrap::refCounter` is a `uint32_t`. */
  const Uint32Modulus: nat := 0x1_0000_0000

  /** `AssetWrap`: the asset object and its reference count. */
  datatype AssetWrap = AssetWrap(pAsset: AssetHandle, refCounter: nat)

  /** The GUID of a path name: `crc32(name.c_str())`, widened to `uint64_t`. */
  function Guid(assetNamePath: seq<bv8>): (guid: nat)
    ensures guid < Uint32Modulus
  {
    Crc32.Crc32Of(assetNamePath + [0]) as nat
  }

  /** The registry's invariant: every entry holds at least one reference, in `uint32_t` range. */
  predicate CountsPositive(m: map<nat, AssetWrap>) {
    forall g :: g in m ==> 1 <= m[g].refCounter < Uint32Modulus
  }

  /** The map after `LoadAsset(guid)` as written: a present entry gains a reference (wrapping at 2^32); an absent one is NOT inserted. */
  function AfterLoad(m: map<nat, AssetWrap>, guid: nat): (r: map<nat, AssetWrap>)
    ensures r.Keys == m.Keys
    ensures forall g :: g in m && g != guid ==> r[g] == m[g]
    ensures guid in m ==> r[guid] == m[guid].(refCounter := (m[guid].refCounter + 1) % Uint32Modulus)
  {
    if guid in m then m[guid := m[guid].(refCounter := (m[guid].refCounter + 1) % Uint32Modulus)] else m
  }

  /** The map after the evidently intended `LoadAsset`: as written, but an absent GUID is inserted with one reference. */
  function AfterIntendedLoad(m: map<nat, AssetWrap>, guid: nat, asset: AssetHandle): (r: map<nat, AssetWrap>)
    ensures r.Keys == m.Keys + {guid}
    ensures forall g :: g in m && g != guid ==> r[g] == m[g]
    ensures guid !in m ==> r[guid] == AssetWrap(asset, 1)
    ensures guid in m ==> r == AfterLoad(m, guid)
  {
    if guid in m then AfterLoad(m, guid) else m[guid := AssetWrap(asset, 1)]
  }

  /** The map after `ReleaseAsset(guid)`: a present entry loses a reference and is erased when the count reaches 0. */
  function AfterRelease(m: map<nat, AssetWrap>, guid: nat): (r: map<nat, AssetWrap>)
    ensures guid !in m ==> r == m
    ensures forall g :: g != guid ==> (g in r <==> g in m) && (g in m ==> r[g] == m[g])
  {
    if guid !in m then m
    else
      var count := (m[guid].refCounter + Uint32Modulus - 1) % Uint32Modulus;
      if count == 0 then m - {guid} else m[guid := m[guid].(refCounter := count)]
  }

  /** One section of a static mesh: its vertex floats, its indices and its material. */
  datatype Mesh = Mesh(vertData: seq<real>, idxData: seq<nat>, materialGUID: nat)

  /** The count getters of `HStaticMeshAsset`. */
  class HStaticMeshAsset {
    var meshes: seq<Mesh>

    constructor(m: seq<Mesh>)
      ensures meshes == m
    {
      meshes := m;
    }

    /** `GetSectionCounts`: the number of meshes. */
    function GetSectionCounts(): (n: nat)
      reads this
      ensures n == |meshes|
    {
      |meshes|
    }

    /** `GetIdxCnt(i)`: the index count of mesh `i`. */
    function GetIdxCnt(i: nat): (n: nat)
      reads this
      requires i < |meshes|
      ensures n == |meshes[i].idxData|
    {
      |meshes[i].idxData|
    }

    /** `GetVertCnt(i)`: the number of whole 12-float vertices of mesh `i`; a partial vertex is not counted. */
    function GetVertCnt(i: nat): (n: nat)
      reads this
      requires i < |meshes|
      ensures n * 12 <= |meshes[i].vertData| < (n + 1) * 12
    {
      |meshes[i].vertData| / 12
    }
  }

  /** `HAssetRsrcManager`: the GUID-to-asset map and the asset folder path. */
  class HAssetRsrcManager {
    var assetsMap: map<nat, AssetWrap>
    var assetFolderPath: string

    /** The built-in cube is registered under the GUID of its name with one reference, and stays loaded. */
    constructor(cubeStrId: seq<bv8>, builtInCube: AssetHandle)
      ensures assetsMap == map[Guid(cubeStrId) := AssetWrap(builtInCube, 1)]
      ensures assetFolderPath == ""
    {
      assetsMap := map[Guid(cubeStrId) := AssetWrap(builtInCube, 1)];
      assetFolderPath := "";
    }

    /** `UpdateAssetFolderPath`: what `GetAssetFolderPath` returns from now on. */
    method UpdateAssetFolderPath(rootDir: string)
      modifies this
      ensures assetFolderPath == rootDir + "\\assets\\"
      ensures assetsMap == old(assetsMap)
    {
      assetFolderPath := rootDir + "\\assets\\";
    }

    /** `LoadAsset` as written: returns the path's GUID and adds a reference to a registered asset; an unregistered one stays unregistered. */
    method LoadAsset(objNamePath: seq<bv8>) returns (guid: nat)
      modifies this
      ensures guid == Guid(objNamePath)
      ensures assetsMap == AfterLoad(old(assetsMap), guid)
      ensures assetFolderPath == old(assetFolderPath)
    {
      guid := Guid(objNamePath);
      if guid in assetsMap {
        assetsMap := assetsMap[guid := assetsMap[guid].(refCounter := (assetsMap[guid].refCounter + 1) % Uint32Modulus)];
      }
    }

    /** The evidently intended `LoadAsset`: an unregistered asset is inserted with one reference. */
    method LoadAssetIntended(objNamePath: seq<bv8>, loaded: AssetHandle) returns (guid: nat)
      modifies this
      ensures guid == Guid(objNamePath)
      ensures assetsMap == AfterIntendedLoad(old(assetsMap), guid, loaded)
      ensures assetFolderPath == old(assetFolderPath)
    {
      guid := Guid(objNamePath);
      if guid in assetsMap {
        assetsMap := assetsMap[guid := assetsMap[guid].(refCounter := (assetsMap[guid].refCounter + 1) % Uint32Modulus)];
      } else {
        assetsMap := assetsMap[guid := AssetWrap(loaded, 1)];
      }
    }

    /** `GetAssetPtr`: the stored asset when the GUID is registered, else null; no count changes. */
    method GetAssetPtr(guid: nat) returns (found: bool, pPtr: AssetPtr)
      ensures found <==> guid in assetsMap
      ensures found ==> pPtr == Ptr(assetsMap[guid].pAsset)
      ensures !found ==> pPtr == Null
    {
      if guid in assetsMap {
        return true, Ptr(assetsMap[guid].pAsset);
      }
      return false, Null;
    }

    /** `ReleaseAsset`: drops a reference; the asset is unloaded when none is left. */
    method ReleaseAsset(guid: nat)
      modifies this
      ensures assetsMap == AfterRelease(old(assetsMap), guid)
      ensures assetFolderPath == old(assetFolderPath)
    {
      if guid in assetsMap {
        var count := (assetsMap[guid].refCounter + Uint32Modulus - 1) % Uint32Modulus;
        assetsMap := assetsMap[guid := assetsMap[guid].(refCounter := count)];
        if assetsMap[guid].refCounter == 0 {
          assetsMap := assetsMap - {guid};
        }
      }
    }

    /** `CleanAllAssets`: every asset is deleted and the map is left empty. */
    method CleanAllAssets()
      modifies this
      ensures assetsMap == map[]
      ensures assetFolderPath == old(assetFolderPath)
    {
      assetsMap := map[];
    }
  }

  // ---------------------------------------------------------------------------
  // Properties
  // ---------------------------------------------------------------------------

  /** The registry built by the constructor satisfies the invariant. */
  lemma ConstructedIsPositive(cubeStrId: seq<bv8>, builtInCube: AssetHandle)
    ensures CountsPositive(map[Guid(cubeStrId) := AssetWrap(builtInCube, 1)])
  {
  }

  /** Loading keeps every count positive, unless a count already at 2^32 - 1 wraps to 0. */
  lemma LoadKeepsCountsPositive(m: map<nat, AssetWrap>, guid: nat)
    requires CountsPositive(m)
    ensures CountsPositive(AfterLoad(m, guid)) <==> guid !in m || m[guid].refCounter != Uint32Modulus - 1
  {
    if guid in m && m[guid].refCounter == Uint32Modulus - 1 {
      assert AfterLoad(m, guid)[guid].refCounter == 0;
    }
  }

  /** Releasing keeps every count positive. */
  lemma ReleaseKeepsCountsPositive(m: map<nat, AssetWrap>, guid: nat)
    requires CountsPositive(m)
    ensures CountsPositive(AfterRelease(m, guid))
  {
  }

  /** Releasing an unregistered GUID changes nothing; releasing the last reference unloads the asset. */
  lemma ReleaseUnloadsAtZero(m: map<nat, AssetWrap>, guid: nat)
    requires CountsPositive(m)
    ensures guid in AfterRelease(m, guid) <==> guid in m && m[guid].refCounter > 1
    ensures guid in AfterRelease(m, guid) ==> AfterRelease(m, guid)[guid].refCounter == m[guid].refCounter - 1
  {
  }

  /** As written, loading an unregistered path leaves it unregistered, so `GetAssetPtr` on its GUID fails. */
  lemma LoadNeverInserts(m: map<nat, AssetWrap>, guid: nat)
    requires guid !in m
    ensures guid !in AfterLoad(m, guid)
  {
  }

  /** On a fresh registry, loading any path other than the cube's leaves the asset unregistered. */
  lemma FreshLoadFails(cubeStrId: seq<bv8>, builtInCube: AssetHandle, path: seq<bv8>)
    requires Guid(path) != Guid(cubeStrId)
    ensures Guid(path) !in AfterLoad(map[Guid(cubeStrId) := AssetWrap(builtInCube, 1)], Guid(path))
  {
  }

  /** The intended load registers the asset and keeps the invariant below the wrap-around. */
  lemma IntendedLoadRegisters(m: map<nat, AssetWrap>, guid: nat, asset: AssetHandle)
    requires CountsPositive(m)
    requires guid in m ==> m[guid].refCounter < Uint32Modulus - 1
    ensures guid in AfterIntendedLoad(m, guid, asset)
    ensures CountsPositive(AfterIntendedLoad(m, guid, asset))
  {
  }

  /** With the intended load, a load followed by a release restores the registry. */
  lemma LoadThenReleaseRestores(m: map<nat, AssetWrap>, guid: nat, asset: AssetHandle)
    requires CountsPositive(m)
    requires guid in m ==> m[guid].refCounter < Uint32Modulus - 1
    ensures AfterRelease(AfterIntendedLoad(m, guid, asset), guid) == m
  {
    var r := AfterRelease(AfterIntendedLoad(m, guid, asset), guid);
    if guid in m {
      assert r[guid] == m[guid];
      assert r.Keys == m.Keys;
    } else {
      assert r.Keys == m.Keys;
    }
  }
}
