/** The host-engine objects the inventory works on, reduced to the attributes it reads and writes. */
module GameWorld {

  datatype Option<T> = None | Some(value: T) {
    function GetOr(default: T): T {
      if Some? then value else default
    }
  }

  function Min(a: int, b: int): int { if a < b then a else b }
  function Max(a: int, b: int): int { if a < b then b else a }

  /** A world position; the model never computes with it, it only assigns and compares it. */
  datatype Vector3 = Vector3(x: real, y: real, z: real)

  /** The size of a mesh's bounding box along its three axes. */
  datatype Extents = Extents(x: real, y: real, z: real) {
    function Axes(): seq<real> {
      [x, y, z]
    }
  }

  /** What the object itself carries: no MeshFilter, a MeshFilter without a mesh, or a mesh. */
  datatype OwnMesh = NoMeshFilter | NullMesh | Mesh(size: Extents)

  /**
   * A PlayMaker state machine attached to an object: its name and the two variables the
   * inventory looks up ("Installed" as a bool, "Tightness" as a float), None when absent.
   */
  datatype Fsm = Fsm(name: string, installed: Option<bool>, tightness: Option<real>)

  /**
   * A game object. The constants are what the inventory only reads; `isKinematic` (of its
   * rigid body), `position` and `parent` are what picking up and dropping assign.
   */
  class GameObject {
    const name: string
    const hasRigidbody: bool
    const mass: real
    const layer: int
    const fsms: seq<Fsm>
    const ownMesh: OwnMesh
    const childMeshes: seq<Extents>
    var isKinematic: bool
    var position: Vector3
    var parent: GameObject?

    constructor (name: string, hasRigidbody: bool, mass: real, layer: int, fsms: seq<Fsm>,
                 ownMesh: OwnMesh, childMeshes: seq<Extents>, position: Vector3)
      ensures this.name == name && this.hasRigidbody == hasRigidbody && this.mass == mass
      ensures this.layer == layer && this.fsms == fsms && this.ownMesh == ownMesh
      ensures this.childMeshes == childMeshes && this.position == position
      ensures !isKinematic && parent == null
    {
      this.name, this.hasRigidbody, this.mass, this.layer := name, hasRigidbody, mass, layer;
      this.fsms, this.ownMesh, this.childMeshes := fsms, ownMesh, childMeshes;
      this.position := position;
      isKinematic, parent := false, null;
    }
  }

  ghost predicate NoDuplicates<T>(s: seq<T>) {
    forall i, j :: 0 <= i < j < |s| ==> s[i] != s[j]
  }
}
