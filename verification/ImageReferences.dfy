/** Which classes a boot image extension or an app image may reference
    (`AotClassLinker::CanReferenceInBootImageExtensionOrAppImage`). A class is a finite term, so
    hierarchies are acyclic by construction. */
module ImageReferences {
  import opened Options

  /** A dex cache: whether it lies in the boot image, and its dex file. */
  datatype DexCache = DexCache(inBootImage: bool, dexFile: int)

  datatype Class =
    | Primitive
    | Array(inBoot: bool, component: Class)
    | Defined(inBoot: bool, dexCache: DexCache, erroneous: bool, super: Option<Class>, ifTable: seq<Class>)

  /** Primitive classes are in the primary boot image. */
  predicate InBootImage(k: Class) {
    k.Primitive? || k.inBoot
  }

  /** What the class linker guarantees: only `Object`, which is in the boot image, has no superclass; the
      boot image is closed; the interface table holds the inherited interfaces and, with an
      interface, everything it extends. */
  predicate WellFormed(k: Class) {
    match k
    case Primitive => true
    case Array(inBoot, component) => WellFormed(component) && (inBoot ==> InBootImage(component))
    case Defined(inBoot, dexCache, _, super, ifTable) =>
      && (super.None? ==> inBoot)
      && (inBoot ==> dexCache.inBootImage)
      && (super.Some? ==>
            && super.value.Defined? && WellFormed(super.value)
            && (inBoot ==> super.value.inBoot)
            && forall i :: i in super.value.ifTable ==> i in ifTable)
      && forall i :: i in ifTable ==>
           && i.Defined? && WellFormed(i)
           && (inBoot ==> i.inBoot)
           && (i.super.Some? ==> i.super.value.inBoot)
           && forall j :: j in i.ifTable ==> j in ifTable
  }

  /** The images being compiled: `appImageDexFiles` is absent unless an app image is. */
  type DexFiles = Option<set<int>>

  predicate Permitted(files: DexFiles, c: DexCache) {
    !c.inBootImage && (files.Some? ==> c.dexFile in files.value)
  }

  /** The class below all array dimensions. */
  function Element(k: Class): Class {
    if k.Array? then Element(k.component) else k
  }

  /** All proper superclasses. */
  function Superclasses(k: Class): seq<Class>
    requires k.Defined? && WellFormed(k)
    ensures forall a :: a in Superclasses(k) ==> a.Defined? && WellFormed(a)
  {
    if k.super.None? then [] else [k.super.value] + Superclasses(k.super.value)
  }

  /** In the boot image, or from a permitted dex file. */
  predicate Fine(files: DexFiles, a: Class)
    requires a.Defined?
  {
    InBootImage(a) || Permitted(files, a.dexCache)
  }

  /** The specification: a class of the boot image, or one whose element class has a permitted dex
      cache and only fine ancestors and interfaces. */
  predicate MayReference(files: DexFiles, k: Class)
    requires WellFormed(k)
  {
    || InBootImage(k)
    || (var e := Element(k);
        ElementWellFormed(k);
        && e.Defined? && !(k.Array? && e.erroneous)
        && Permitted(files, e.dexCache)
        && (forall a :: a in Superclasses(e) ==> Fine(files, a))
        && (forall i :: i in e.ifTable ==> Fine(files, i)))
  }

  lemma {:induction false} ElementWellFormed(k: Class)
    requires WellFormed(k)
    ensures WellFormed(Element(k))
    ensures !Element(k).Array?
  {
    if k.Array? {
      ElementWellFormed(k.component);
    }
  }

  lemma {:induction false} BootSuperclasses(k: Class)
    requires k.Defined? && WellFormed(k) && k.inBoot
    ensures forall a :: a in Superclasses(k) ==> a.inBoot
  {
    if k.super.Some? {
      BootSuperclasses(k.super.value);
    }
  }

  /** The walk over the superclasses. It stops at the first one in the boot image, and so is never
      asked to go past `Object`. */
  method SuperclassesFine(files: DexFiles, klass: Class) returns (r: bool)
    requires klass.Defined? && WellFormed(klass) && !klass.inBoot
    ensures r <==> forall a :: a in Superclasses(klass) ==> Fine(files, a)
  {
    var super := klass.super;
    while !InBootImage(super.value)
      invariant super.Some? && super.value.Defined? && WellFormed(super.value)
      invariant super.value in Superclasses(klass)
      invariant forall a :: a in Superclasses(super.value) ==> a in Superclasses(klass)
      invariant forall a :: a in Superclasses(klass) ==>
                  Fine(files, a) || a == super.value || a in Superclasses(super.value)
      decreases super
    {
      if !Permitted(files, super.value.dexCache) {
        return false;
      }
      super := super.value.super;
    }
    BootSuperclasses(super.value);
    return true;
  }

  /** The loop over the interface table. */
  method InterfacesFine(files: DexFiles, klass: Class) returns (r: bool)
    requires klass.Defined? && WellFormed(klass)
    ensures r <==> forall i :: i in klass.ifTable ==> Fine(files, i)
  {
    for n := 0 to |klass.ifTable|
      invariant forall i :: 0 <= i < n ==> Fine(files, klass.ifTable[i])
    {
      var interface := klass.ifTable[n];
      assert interface in klass.ifTable;
      if !InBootImage(interface) && !Permitted(files, interface.dexCache) {
        return false;
      }
    }
    return true;
  }

  /** The check itself. */
  method CanReference(files: DexFiles, k: Class) returns (r: bool)
    requires WellFormed(k)
    ensures r <==> MayReference(files, k)
  {
    if InBootImage(k) {
      return true;
    }
    var klass := k;
    if klass.Array? {
      klass := klass.component;
      while klass.Array?
        invariant WellFormed(klass) && Element(klass) == Element(k)
        decreases klass
      {
        klass := klass.component;
      }
      if klass.Primitive? || klass.erroneous {
        return false;
      }
    }
    if !Permitted(files, klass.dexCache) {
      return false;
    }
    r := SuperclassesFine(files, klass);
    if r {
      r := InterfacesFine(files, klass);
    }
  }

  /** What is accepted outside the boot image: a class that is itself, and whose superclasses and interfaces
      outside the boot image are, from a dex file that is not part of the boot image and, if there is an
      app image, belongs to it; or an array of such a class, unless that is erroneous. */
  lemma AcceptedExactlyWhen(files: DexFiles, k: Class)
    requires WellFormed(k)
    ensures WellFormed(Element(k))
    ensures MayReference(files, k) <==>
      || k == Primitive
      || k.inBoot
      || (&& Element(k).Defined?
          && (k.Array? ==> !Element(k).erroneous)
          && !Element(k).dexCache.inBootImage
          && (files.Some? ==> Element(k).dexCache.dexFile in files.value)
          && (forall a :: a in Superclasses(Element(k)) && !a.inBoot ==>
                !a.dexCache.inBootImage && (files.Some? ==> a.dexCache.dexFile in files.value))
          && (forall i :: i in Element(k).ifTable && !i.inBoot ==>
                !i.dexCache.inBootImage && (files.Some? ==> i.dexCache.dexFile in files.value)))
  {
    ElementWellFormed(k);
  }

  /** The element class is what is left when all array dimensions are taken away; the superclasses are
      what following `super` leads to. */
  lemma ElementAndSuperclasses(k: Class)
    requires WellFormed(k)
    ensures k.Array? ==> Element(k) == Element(k.component)
    ensures !k.Array? ==> Element(k) == k
    ensures k.Defined? ==> forall a :: a in Superclasses(k) <==>
      k.super.Some? && (a == k.super.value || a in Superclasses(k.super.value))
  {
  }

  /** The classes a class refers to directly. */
  function References(k: Class): set<Class> {
    match k
    case Primitive => {}
    case Array(_, component) => {component}
    case Defined(_, _, _, super, ifTable) => (if super.Some? then {super.value} else {}) + set i | i in ifTable
  }

  /** Closed upwards: whatever an accepted class refers to is accepted too. */
  lemma AcceptedReferences(files: DexFiles, k: Class, r: Class)
    requires WellFormed(k) && MayReference(files, k) && r in References(k)
    ensures WellFormed(r) && MayReference(files, r)
  {
    if k.Defined? && r in k.ifTable {
      if !InBootImage(r) {
        assert Fine(files, r);
        if r.super.Some? {
          BootSuperclasses(r.super.value);
        }
      }
    } else if k.Defined? && !k.inBoot && !InBootImage(r) {
      assert r in Superclasses(k) && Fine(files, r);
      assert forall a :: a in Superclasses(r) ==> a in Superclasses(k);
    } else if k.Array? && !k.inBoot && r.Array? {
      ElementWellFormed(r);
    }
  }

  /** `path` follows references from class to class. */
  predicate IsPath(path: seq<Class>) {
    path != [] && forall n :: 0 < n < |path| ==> path[n] in References(path[n - 1])
  }

  /** Hence no chain of superclasses, interfaces and component types leads out. */
  lemma {:induction false} AcceptedIsClosed(files: DexFiles, path: seq<Class>)
    requires IsPath(path) && WellFormed(path[0]) && MayReference(files, path[0])
    ensures WellFormed(path[|path| - 1]) && MayReference(files, path[|path| - 1])
    decreases |path|
  {
    if |path| > 1 {
      assert path[1] in References(path[0]);
      AcceptedReferences(files, path[0], path[1]);
      AcceptedIsClosed(files, path[1..]);
    }
  }

  /** An array class outside the boot image is tied to its element class. An element class that
      is itself in the boot image does not make the array acceptable. */
  lemma ArrayAcceptedIff(files: DexFiles, k: Class)
    requires WellFormed(k) && k.Array? && !k.inBoot
    ensures WellFormed(Element(k))
    ensures MayReference(files, k) <==>
      var e := Element(k);
      e.Defined? && !e.inBoot && !e.erroneous && MayReference(files, e)
  {
    ElementWellFormed(k);
  }
}
