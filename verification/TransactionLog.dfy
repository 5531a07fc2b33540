/** The records a `Transaction` keeps, on raw addresses, and what each recording operation and
    each root visit does to them. */
module TransactionLog {
  import opened FieldValues
  import opened ManagedHeap

  datatype FieldValue = FieldValue(value: int, kind: Kind, isVolatile: bool)

  /** `ObjectLog` and `ArrayLog`: old values by field offset or by element index. */
  datatype ObjectLog = ObjectLog(isNew: bool, values: map<int, FieldValue>)
  datatype ArrayLog = ArrayLog(isNew: bool, values: map<int, int>)

  /** `InternStringLog`. The list of these is kept newest first. */
  datatype InternLog = InternLog(str: Addr, strong: bool, insert: bool)

  datatype Tx = Tx(
    strict: bool,
    root: Addr,
    last: Addr,
    objectLogs: map<Addr, ObjectLog>,
    arrayLogs: map<Addr, ArrayLog>,
    interns: seq<InternLog>,
    aborted: bool,
    rollingBack: bool)

  function NewTx(strict: bool, root: Addr): Tx {
    Tx(strict, root, NULL, map[], map[], [], false, false)
  }

  // --- Recording ----------------------------------------------------------------------------

  function RecordNewObject(tx: Tx, a: Addr): Tx {
    tx.(last := a, objectLogs := tx.objectLogs[a := ObjectLog(true, map[])])
  }

  function RecordNewArray(tx: Tx, a: Addr, isObjectArray: bool): Tx {
    if isObjectArray then RecordNewObject(tx, a)
    else tx.(last := a, arrayLogs := tx.arrayLogs[a := ArrayLog(true, map[])])
  }

  function GetObjectLog(tx: Tx, a: Addr): ObjectLog {
    if a in tx.objectLogs then tx.objectLogs[a] else ObjectLog(false, map[])
  }

  function GetArrayLog(tx: Tx, a: Addr): ArrayLog {
    if a in tx.arrayLogs then tx.arrayLogs[a] else ArrayLog(false, map[])
  }

  /** First write wins; nothing is kept for new objects. */
  function LogField(log: ObjectLog, off: int, fv: FieldValue): ObjectLog {
    if log.isNew || off in log.values then log
    else log.(values := log.values[off := fv])
  }

  function LogElem(log: ArrayLog, i: int, u: int): ArrayLog {
    if log.isNew || i in log.values then log
    else log.(values := log.values[i := u])
  }

  function RecordWriteField(tx: Tx, a: Addr, off: int, fv: FieldValue): Tx {
    if a == tx.last then tx
    else tx.(objectLogs := tx.objectLogs[a := LogField(GetObjectLog(tx, a), off, fv)])
  }

  function RecordWriteArray(tx: Tx, a: Addr, i: int, u: int): Tx {
    if a == tx.last then tx
    else tx.(arrayLogs := tx.arrayLogs[a := LogElem(GetArrayLog(tx, a), i, u)])
  }

  function RecordIntern(tx: Tx, log: InternLog): Tx {
    tx.(interns := [log] + tx.interns)
  }

  predicate NewObjectLogged(tx: Tx, a: Addr) {
    a in tx.objectLogs && tx.objectLogs[a].isNew
  }

  predicate NewArrayLogged(tx: Tx, a: Addr) {
    a in tx.arrayLogs && tx.arrayLogs[a].isNew
  }

  /** `ObjectNeedsTransactionRecords` and `ArrayNeedsTransactionRecords`, with their shortcut. */
  predicate ObjectNeedsRecords(tx: Tx, a: Addr) {
    a != tx.last && !NewObjectLogged(tx, a)
  }

  predicate ArrayNeedsRecords(tx: Tx, a: Addr) {
    a != tx.last && !NewArrayLogged(tx, a)
  }

  // --- Root visits --------------------------------------------------------------------------

  /** What a root visitor leaves in a root that held `a`. */
  function Visit(fwd: map<Addr, Addr>, a: Addr): Addr {
    if a in fwd then fwd[a] else a
  }

  function VisitField(fwd: map<Addr, Addr>, fv: FieldValue): FieldValue {
    if fv.kind.KReference? && fv.value > 0 then fv.(value := Visit(fwd, fv.value)) else fv
  }

  function VisitObjectLog(fwd: map<Addr, Addr>, log: ObjectLog): ObjectLog {
    log.(values := map off | off in log.values :: VisitField(fwd, log.values[off]))
  }

  function VisitIntern(fwd: map<Addr, Addr>, log: InternLog): InternLog {
    log.(str := Visit(fwd, log.str))
  }

  ghost predicate InjectiveOn(fwd: map<Addr, Addr>, keys: set<Addr>) {
    forall a, b :: a in keys && b in keys && Visit(fwd, a) == Visit(fwd, b) ==> a == b
  }

  /** `m'` is `m` with every key replaced by its new address. */
  ghost predicate Rekeyed<V>(fwd: map<Addr, Addr>, m: map<Addr, V>, m': map<Addr, V>) {
    && (forall a :: a in m ==> Visit(fwd, a) in m' && m'[Visit(fwd, a)] == m[a])
    && (forall b {:trigger MovedFrom(fwd, m.Keys, b)} :: b in m' ==> MovedFrom(fwd, m.Keys, b))
  }

  ghost predicate MovedFrom(fwd: map<Addr, Addr>, keys: set<Addr>, b: Addr) {
    exists a :: a in keys && Visit(fwd, a) == b
  }

  /** No logged address moves down onto another logged address that moves as well. */
  ghost predicate NoDownwardClash(fwd: map<Addr, Addr>, keys: set<Addr>) {
    forall a, b :: a in keys && b in keys && b < a && Visit(fwd, a) == b ==> Visit(fwd, b) == b
  }

  function VisitReferences(fwd: map<Addr, Addr>, m: map<Addr, ObjectLog>): (m': map<Addr, ObjectLog>)
    ensures m'.Keys == m.Keys
  {
    map a | a in m :: VisitObjectLog(fwd, m[a])
  }

  ghost predicate ObjectLogsVisited(fwd: map<Addr, Addr>, m: map<Addr, ObjectLog>, m': map<Addr, ObjectLog>) {
    Rekeyed(fwd, VisitReferences(fwd, m), m')
  }

  /** The outcome of `Transaction::VisitRoots`. */
  ghost predicate Visited(fwd: map<Addr, Addr>, tx: Tx, tx': Tx) {
    && tx'.root == Visit(fwd, tx.root)
    && tx'.last == Visit(fwd, tx.last)
    && ObjectLogsVisited(fwd, tx.objectLogs, tx'.objectLogs)
    && Rekeyed(fwd, tx.arrayLogs, tx'.arrayLogs)
    && |tx'.interns| == |tx.interns|
    && (forall i :: 0 <= i < |tx.interns| ==> tx'.interns[i] == VisitIntern(fwd, tx.interns[i]))
    && tx'.strict == tx.strict && tx'.aborted == tx.aborted && tx'.rollingBack == tx.rollingBack
  }

  /** The addresses `VisitRoots` reports to the collector. */
  ghost predicate IsRoot(tx: Tx, a: Addr) {
    && a != NULL
    && (|| a == tx.root
        || a == tx.last
        || a in tx.objectLogs
        || a in tx.arrayLogs
        || (exists b, off :: LoggedReference(tx, b, off, a))
        || (exists i :: 0 <= i < |tx.interns| && tx.interns[i].str == a))
  }

  ghost predicate LoggedReference(tx: Tx, b: Addr, off: int, a: Addr) {
    && b in tx.objectLogs && off in tx.objectLogs[b].values
    && tx.objectLogs[b].values[off].kind.KReference?
    && tx.objectLogs[b].values[off].value == a
  }

  // --- Reading the records back ---------------------------------------------------------------

  /** The 64-bit number recorded for a field value. */
  function Raw(addr: map<Id, Addr>, v: Value): int
    requires v.Scalar? ==> InRange(v.kind, v.n)
  {
    match v
    case Scalar(_, n) => Widen(n)
    case Reference(t) => AddrOf(addr, t)
  }

  function KindOf(v: Value): Kind {
    match v
    case Scalar(kind, _) => kind
    case Reference(_) => KReference
  }

  /** The value `UndoFieldWrite` stores for a record. */
  ghost function Decode(addr: map<Id, Addr>, fv: FieldValue): Value {
    if fv.kind.KReference? then Reference(if fv.value > 0 then IdAt(addr, fv.value) else NULL)
    else Scalar(fv.kind, Narrow(fv.kind, fv.value))
  }

  lemma DecodeRaw(h: Heap, v: Value, vol: bool)
    requires HeapOk(h) && ValueOk(v, h.objs.Keys)
    ensures Decode(h.addr, FieldValue(Raw(h.addr, v), KindOf(v), vol)) == v
  {
    match v
    case Scalar(kind, n) => ScalarRoundTrip(kind, n);
    case Reference(t) => IdAtAddrOf(h, t);
  }

  /** What a rollback of `tx` would store at `l`, or `Absent` if `l` is not recorded. */
  ghost function Logged(tx: Tx, h: Heap, l: Loc): Cell {
    if l.id !in h.addr || l.id !in h.objs then Absent
    else
      var a := h.addr[l.id];
      match l
      case FieldAt(id, off) =>
        if a in tx.objectLogs && off in tx.objectLogs[a].values
        then Field(Decode(h.addr, tx.objectLogs[a].values[off])) else Absent
      case ElemAt(id, i) =>
        if a in tx.arrayLogs && i in tx.arrayLogs[a].values && h.objs[id].shape.PrimArray?
        then Element(NarrowElem(h.objs[id].shape.ty, tx.arrayLogs[a].values[i])) else Absent
  }

  /** The heap after `UndoObjectModifications` and `UndoArrayModifications`. */
  ghost function UndoneObj(h: Heap, tx: Tx, id: Id): Obj
    requires id in h.objs
  {
    var o := h.objs[id];
    o.(fields := map off | off in o.fields ::
         if Logged(tx, h, FieldAt(id, off)).Field? && !HeaderWord(h.objs, FieldAt(id, off))
         then Logged(tx, h, FieldAt(id, off)).v else o.fields[off],
       elems := map i | i in o.elems ::
         if Logged(tx, h, ElemAt(id, i)).Element?
         then Logged(tx, h, ElemAt(id, i)).e else o.elems[i])
  }

  ghost function Undone(h: Heap, tx: Tx): Heap {
    h.(objs := map id | id in h.objs :: UndoneObj(h, tx, id))
  }

  lemma UndoneCell(h: Heap, tx: Tx, l: Loc)
    requires CellAt(h.objs, l) != Absent
    ensures CellAt(Undone(h, tx).objs, l)
         == if Logged(tx, h, l) != Absent && !HeaderWord(h.objs, l) then Logged(tx, h, l)
            else CellAt(h.objs, l)
  {
  }

  // --- Consistency of the records -------------------------------------------------------------

  ghost predicate ObjectLogOk(h: Heap, a: Addr, log: ObjectLog) {
    && IsAddress(h.addr, a)
    && (log.isNew ==> log.values == map[] && IdAt(h.addr, a) in h.objs && !h.objs[IdAt(h.addr, a)].shape.PrimArray?)
    && (forall off :: off in log.values ==> FieldValueOk(h, IdAt(h.addr, a), off, log.values[off]))
  }

  ghost predicate FieldValueOk(h: Heap, id: Id, off: int, fv: FieldValue) {
    && id in h.objs && off in h.objs[id].fields
    && IsU64(fv.value)
    && (fv.kind.KReference? ==> fv.value == NULL || IsAddress(h.addr, fv.value))
  }

  ghost predicate ArrayLogOk(h: Heap, a: Addr, log: ArrayLog) {
    && IsAddress(h.addr, a)
    && IdAt(h.addr, a) in h.objs
    && h.objs[IdAt(h.addr, a)].shape.PrimArray?
    && (log.isNew ==> log.values == map[])
    && (forall i :: i in log.values ==> i in h.objs[IdAt(h.addr, a)].elems)
  }

  /** The last allocated object is one that is flagged as new, in the log its shape selects. */
  ghost predicate LastOk(tx: Tx, h: Heap) {
    tx.last != NULL ==>
      && IsAddress(h.addr, tx.last)
      && IdAt(h.addr, tx.last) in h.objs
      && if h.objs[IdAt(h.addr, tx.last)].shape.PrimArray? then NewArrayLogged(tx, tx.last)
         else NewObjectLogged(tx, tx.last)
  }

  ghost predicate TxOk(tx: Tx, h: Heap) {
    && (tx.root == NULL || IsAddress(h.addr, tx.root))
    && LastOk(tx, h)
    && (forall a :: a in tx.objectLogs ==> ObjectLogOk(h, a, tx.objectLogs[a]))
    && (forall a :: a in tx.arrayLogs ==> ArrayLogOk(h, a, tx.arrayLogs[a]))
    && (forall i :: 0 <= i < |tx.interns| ==> tx.interns[i].str != NULL && IsAddress(h.addr, tx.interns[i].str))
  }

  /** The shortcut through the last allocated object answers like the lookup it saves, unless
      the question is put to the log that does not hold the object: a primitive array asked
      about as an object, or anything else asked about as an array. */
  lemma ShortcutAgreesWithLookup(tx: Tx, h: Heap, id: Id)
    requires HeapOk(h) && TxOk(tx, h) && id in h.objs
    ensures ObjectNeedsRecords(tx, h.addr[id]) == !NewObjectLogged(tx, h.addr[id])
       <==> !(h.addr[id] == tx.last && h.objs[id].shape.PrimArray?)
    ensures ArrayNeedsRecords(tx, h.addr[id]) == !NewArrayLogged(tx, h.addr[id])
       <==> !(h.addr[id] == tx.last && !h.objs[id].shape.PrimArray?)
  {
    IdAtAddrOf(h, id);
    if h.addr[id] in tx.arrayLogs {
      assert ArrayLogOk(h, h.addr[id], tx.arrayLogs[h.addr[id]]);
    }
    if h.addr[id] in tx.objectLogs {
      assert ObjectLogOk(h, h.addr[id], tx.objectLogs[h.addr[id]]);
    }
  }

  /** Skipping the record for the last allocated object changes nothing: the record would have
      been dropped anyway by the log flagged as new. */
  lemma ShortcutSkipsNothing(tx: Tx, h: Heap, id: Id, off: int, fv: FieldValue, i: int, u: int)
    requires HeapOk(h) && TxOk(tx, h) && id in h.objs
    ensures !h.objs[id].shape.PrimArray? && h.addr[id] == tx.last ==>
              RecordWriteField(tx.(last := NULL), h.addr[id], off, fv).objectLogs == tx.objectLogs
    ensures h.objs[id].shape.PrimArray? && h.addr[id] == tx.last ==>
              RecordWriteArray(tx.(last := NULL), h.addr[id], i, u).arrayLogs == tx.arrayLogs
  {
    IdAtAddrOf(h, id);
  }
}
