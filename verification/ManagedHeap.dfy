/** The managed heap as a transaction sees it. Every object has an identity that never changes
    and an address that a moving collection may change; references inside the heap are
    identities, while `Transaction` keeps raw addresses. */
module ManagedHeap {
  import opened FieldValues

  /** Identities and addresses; 0 is the null reference in both. */
  type Id = int
  type Addr = int

  const NULL: int := 0

  /** `Object::ClassOffset()` and `Array::LengthOffset()`. */
  const CLASS_OFFSET: int := 0
  const LENGTH_OFFSET: int := 8

  datatype Shape = Plain | ClassObject | ObjectArray | PrimArray(ty: PrimType) {
    predicate IsArray() {
      ObjectArray? || PrimArray?
    }
  }

  datatype Value = Scalar(kind: Kind, n: int) | Reference(target: Id)

  datatype Obj = Obj(shape: Shape, fields: map<int, Value>, elems: map<int, Elem>)

  datatype Heap = Heap(objs: map<Id, Obj>, addr: map<Id, Addr>)

  /** A place that holds a value: a field, or an element of a primitive array. */
  datatype Loc = FieldAt(id: Id, off: int) | ElemAt(id: Id, index: int)

  datatype Cell = Absent | Field(v: Value) | Element(e: Elem)

  function CellAt(objs: map<Id, Obj>, l: Loc): Cell {
    if l.id !in objs then Absent
    else match l
      case FieldAt(id, off) => if off in objs[id].fields then Field(objs[id].fields[off]) else Absent
      case ElemAt(id, i) => if i in objs[id].elems then Element(objs[id].elems[i]) else Absent
  }

  predicate ValueOk(v: Value, ids: set<Id>) {
    match v
    case Scalar(kind, n) => InRange(kind, n)
    case Reference(t) => t == NULL || t in ids
  }

  ghost predicate ObjOk(o: Obj, ids: set<Id>) {
    && (forall off :: off in o.fields ==> ValueOk(o.fields[off], ids))
    && (o.shape.PrimArray? ==> forall i :: i in o.elems ==> ElemInRange(o.shape.ty, o.elems[i]))
    && (!o.shape.PrimArray? ==> o.elems == map[])
  }

  /** Distinct live objects sit at distinct non-null addresses and refer to live objects only. */
  ghost predicate HeapOk(h: Heap) {
    && NULL !in h.objs
    && h.addr.Keys == h.objs.Keys
    && (forall id :: id in h.addr ==> h.addr[id] != NULL && IsU64(h.addr[id]))
    && (forall i, j :: i in h.addr && j in h.addr && h.addr[i] == h.addr[j] ==> i == j)
    && (forall id :: id in h.objs ==> ObjOk(h.objs[id], h.objs.Keys))
  }

  ghost predicate IsAddress(addr: map<Id, Addr>, a: Addr) {
    exists id :: id in addr && addr[id] == a
  }

  /** The object at an address. */
  ghost function IdAt(addr: map<Id, Addr>, a: Addr): Id {
    if a != NULL && IsAddress(addr, a) then
      var id :| id in addr && addr[id] == a; id
    else NULL
  }

  function AddrOf(addr: map<Id, Addr>, id: Id): Addr {
    if id in addr then addr[id] else NULL
  }

  lemma IdAtAddrOf(h: Heap, id: Id)
    requires HeapOk(h)
    requires id == NULL || id in h.objs
    ensures IdAt(h.addr, AddrOf(h.addr, id)) == id
  {
    if id != NULL {
      assert IsAddress(h.addr, h.addr[id]);
    }
  }

  lemma AddrOfIdAt(h: Heap, a: Addr)
    requires HeapOk(h)
    requires a == NULL || IsAddress(h.addr, a)
    ensures IdAt(h.addr, a) == NULL <==> a == NULL
    ensures a != NULL ==> IdAt(h.addr, a) in h.objs
    ensures AddrOf(h.addr, IdAt(h.addr, a)) == a
  {
  }

  function SetField(h: Heap, id: Id, off: int, v: Value): Heap
    requires id in h.objs
  {
    var o := h.objs[id];
    h.(objs := h.objs[id := o.(fields := o.fields[off := v])])
  }

  function SetElem(h: Heap, id: Id, i: int, e: Elem): Heap
    requires id in h.objs
  {
    var o := h.objs[id];
    h.(objs := h.objs[id := o.(elems := o.elems[i := e])])
  }

  /** The two words `ObjectLog::Undo` never touches, because the collector relies on them. */
  predicate HeaderWord(objs: map<Id, Obj>, l: Loc) {
    && l.FieldAt?
    && l.id in objs
    && (l.off == CLASS_OFFSET || (objs[l.id].shape.IsArray() && l.off == LENGTH_OFFSET))
  }
}
