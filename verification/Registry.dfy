/** Library and item identities: lookup by native key, resolution of references, allocation of new ids. */
module Registry {
  import opened Options
  import opened Catalogue
  import opened BatchInput

  const MAX_NATIVE_ID: nat := 4096

  datatype LibraryKey = LibraryKey(provider: int, native: string)

  datatype ItemKey = ItemKey(provider: int, native: string, library: Ref, kind: int)

  datatype Library = Library(key: LibraryKey, name: string)

  /** The two identity tables with their unique indexes and the next automatic ids. */
  datatype Reg = Reg(
    libraries: map<int, Library>,
    libraryIndex: map<LibraryKey, int>,
    nextLibrary: int,
    items: map<int, ItemKey>,
    itemIndex: map<ItemKey, int>,
    nextItem: int)

  ghost predicate LibrariesConsistent(r: Reg) {
    && (forall k :: k in r.libraryIndex ==>
          r.libraryIndex[k] in r.libraries && r.libraries[r.libraryIndex[k]].key == k)
    && (forall l :: l in r.libraries ==>
          l < r.nextLibrary && r.libraries[l].key in r.libraryIndex && r.libraryIndex[r.libraries[l].key] == l)
  }

  ghost predicate ItemsConsistent(r: Reg) {
    && (forall k :: k in r.itemIndex ==> r.itemIndex[k] in r.items && r.items[r.itemIndex[k]] == k)
    && (forall i :: i in r.items ==>
          i < r.nextItem && r.items[i] in r.itemIndex && r.itemIndex[r.items[i]] == i)
  }

  ghost predicate Consistent(r: Reg) {
    LibrariesConsistent(r) && ItemsConsistent(r)
  }

  // --- Libraries ---

  function WriteLibrary(r: Reg, provider: int, e: LibraryInput): Reg {
    var k := LibraryKey(provider, e.native);
    if k in r.libraryIndex && r.libraryIndex[k] in r.libraries then
      var l := r.libraryIndex[k];
      r.(libraries := r.libraries[l := r.libraries[l].(name := e.name)])
    else
      AddLibrary(r, Library(k, e.name))
  }

  function AddLibrary(r: Reg, l: Library): Reg {
    r.(libraries := r.libraries[r.nextLibrary := l],
       libraryIndex := r.libraryIndex[l.key := r.nextLibrary],
       nextLibrary := r.nextLibrary + 1)
  }

  function AddItem(r: Reg, k: ItemKey): Reg {
    r.(items := r.items[r.nextItem := k],
       itemIndex := r.itemIndex[k := r.nextItem],
       nextItem := r.nextItem + 1)
  }

  predicate LibrariesOk(es: seq<LibraryInput>) {
    && (forall i :: 0 <= i < |es| ==> es[i].native != "")
    && (forall i, j :: 0 <= i < j < |es| ==> es[i].native != es[j].native)
  }

  function WriteLibraries(r: Reg, provider: int, es: seq<LibraryInput>): Reg {
    if es == [] then r else WriteLibrary(WriteLibraries(r, provider, es[..|es| - 1]), provider, es[|es| - 1])
  }

  /** Every library of the batch is stored under its key with the batch's name. */
  ghost predicate LibrariesStored(r: Reg, provider: int, es: seq<LibraryInput>) {
    forall i :: 0 <= i < |es| ==>
      var k := LibraryKey(provider, es[i].native);
      k in r.libraryIndex && r.libraryIndex[k] in r.libraries && r.libraries[r.libraryIndex[k]] == Library(k, es[i].name)
  }

  /** Identities only grow: what was registered keeps its key and id. */
  ghost predicate Extends(a: Reg, b: Reg) {
    && (forall l :: l in a.libraries ==> l in b.libraries && a.libraries[l].key == b.libraries[l].key)
    && (forall k :: k in a.libraryIndex ==> k in b.libraryIndex && a.libraryIndex[k] == b.libraryIndex[k])
    && (forall i :: i in a.items ==> i in b.items && a.items[i] == b.items[i])
    && (forall k :: k in a.itemIndex ==> k in b.itemIndex && a.itemIndex[k] == b.itemIndex[k])
  }

  lemma AddLibraryExtends(r: Reg, l: Library)
    requires Consistent(r) && l.key !in r.libraryIndex
    ensures LibrariesConsistent(AddLibrary(r, l)) && Extends(r, AddLibrary(r, l))
  {
    assert r.nextLibrary !in r.libraries;
  }

  lemma AddItemExtends(r: Reg, k: ItemKey)
    requires Consistent(r) && k !in r.itemIndex
    ensures ItemsConsistent(AddItem(r, k)) && Extends(r, AddItem(r, k))
  {
    assert r.nextItem !in r.items;
  }

  lemma WriteLibraryExtends(r: Reg, provider: int, e: LibraryInput)
    requires Consistent(r)
    ensures Consistent(WriteLibrary(r, provider, e)) && Extends(r, WriteLibrary(r, provider, e))
  {
    var k := LibraryKey(provider, e.native);
    if k !in r.libraryIndex {
      AddLibraryExtends(r, Library(k, e.name));
    }
  }

  lemma WriteLibraryStores(r: Reg, provider: int, e: LibraryInput, es: seq<LibraryInput>)
    requires Consistent(r) && LibrariesStored(r, provider, es)
    requires forall i :: 0 <= i < |es| ==> es[i].native != e.native
    ensures LibrariesStored(WriteLibrary(r, provider, e), provider, es + [e])
  {
    var r' := WriteLibrary(r, provider, e);
    forall i | 0 <= i < |es| + 1
      ensures var k := LibraryKey(provider, (es + [e])[i].native);
              k in r'.libraryIndex && r'.libraryIndex[k] in r'.libraries
              && r'.libraries[r'.libraryIndex[k]] == Library(k, (es + [e])[i].name)
    {
      if i < |es| {
        var k := LibraryKey(provider, es[i].native);
        assert k != LibraryKey(provider, e.native);
        assert r.libraries[r.libraryIndex[k]].key == k;
      }
    }
  }

  lemma {:induction false} WriteLibrariesStores(r: Reg, provider: int, es: seq<LibraryInput>)
    requires Consistent(r) && LibrariesOk(es)
    ensures var r' := WriteLibraries(r, provider, es);
            Consistent(r') && Extends(r, r') && LibrariesStored(r', provider, es)
  {
    if es != [] {
      var n := |es| - 1;
      WriteLibrariesStores(r, provider, es[..n]);
      WriteLibraryExtends(WriteLibraries(r, provider, es[..n]), provider, es[n]);
      WriteLibraryStores(WriteLibraries(r, provider, es[..n]), provider, es[n], es[..n]);
      assert es[..n] + [es[n]] == es;
    }
  }

  /** Libraries that are stored already are written again without effect. */
  lemma {:induction false} WriteLibrariesAgain(r: Reg, provider: int, es: seq<LibraryInput>)
    requires LibrariesStored(r, provider, es)
    ensures WriteLibraries(r, provider, es) == r
  {
    if es != [] {
      var n := |es| - 1;
      assert LibrariesStored(r, provider, es[..n]);
      WriteLibrariesAgain(r, provider, es[..n]);
      var l := r.libraryIndex[LibraryKey(provider, es[n].native)];
      assert r.libraries[l := r.libraries[l].(name := es[n].name)] == r.libraries;
    }
  }

  // --- References ---

  function KeyFor(provider: int, ref: ItemRef): ItemKey
    requires ref.Key? && ref.library.In?
  {
    ItemKey(provider, ref.native, ref.library.library, ref.kind)
  }

  /** A key names a library of the provider, or is global and names a mix or radio. */
  predicate KeyOk(r: Reg, provider: int, ref: ItemRef) {
    && ref.Key?
    && ref.native != "" && |ref.native| <= MAX_NATIVE_ID
    && ref.library.In?
    && match ref.library.library
       case To(l) => l in r.libraries && r.libraries[l].key.provider == provider
       case Null => ref.kind in {MIX, RADIO}
  }

  /** The referenced item's id, or null if the reference is refused; `types` empty allows any type. */
  function Resolve(r: Reg, provider: int, ref: ItemRef, types: set<int>): Ref {
    match ref
    case Id(id) =>
      if id in r.items && r.items[id].provider == provider && (types == {} || r.items[id].kind in types)
      then To(id) else Null
    case Key(_, _, kind, expected) =>
      if (types != {} && kind !in types) || !KeyOk(r, provider, ref) then Null
      else
        var k := KeyFor(provider, ref);
        if k in r.itemIndex && (expected.Some? ==> expected.value == r.itemIndex[k]) then To(r.itemIndex[k]) else Null
  }

  datatype Want = Want(ref: ItemRef, types: set<int>)

  datatype Allocation = Refused | Allocated(reg: Reg, id: int)

  /** Resolves a reference to an entity of the batch, registering a new item for an unknown key. */
  function Allocate(r: Reg, provider: int, w: Want): Allocation {
    match w.ref
    case Id(_) =>
      var found := Resolve(r, provider, w.ref, w.types);
      if found.To? then Allocated(r, found.id) else Refused
    case Key(_, _, kind, expected) =>
      if !KeyOk(r, provider, w.ref) || kind !in w.types then Refused
      else
        var k := KeyFor(provider, w.ref);
        if k in r.itemIndex then
          if expected.Some? && expected.value != r.itemIndex[k] then Refused else Allocated(r, r.itemIndex[k])
        else if expected.Some? then Refused
        else
          Allocated(AddItem(r, k), r.nextItem)
  }

  datatype Allocations = Failed | All(reg: Reg, ids: seq<int>)

  /** All entities of a batch in order; no two may be the same item. */
  function AllocateAll(r: Reg, provider: int, ws: seq<Want>): Allocations {
    if ws == [] then All(r, [])
    else
      match AllocateAll(r, provider, ws[..|ws| - 1])
      case Failed => Failed
      case All(r1, ids) =>
        match Allocate(r1, provider, ws[|ws| - 1])
        case Refused => Failed
        case Allocated(r2, id) => if id in ids then Failed else All(r2, ids + [id])
  }

  /** The id is one of the provider's items, of a wanted type. */
  ghost predicate Wanted(r: Reg, provider: int, w: Want, id: int) {
    id in r.items && r.items[id].provider == provider && (w.types == {} || r.items[id].kind in w.types)
  }

  lemma ResolveStable(a: Reg, b: Reg, provider: int, ref: ItemRef, types: set<int>)
    requires Extends(a, b) && Resolve(a, provider, ref, types).To?
    ensures Resolve(b, provider, ref, types) == Resolve(a, provider, ref, types)
  {
  }

  lemma AllocateExtends(r: Reg, provider: int, w: Want)
    requires Consistent(r) && Allocate(r, provider, w).Allocated?
    ensures var a := Allocate(r, provider, w);
            && Consistent(a.reg) && Extends(r, a.reg)
            && a.reg.libraries == r.libraries && a.reg.libraryIndex == r.libraryIndex
            && Wanted(a.reg, provider, w, a.id)
            && (w.types != {} ==> Resolve(a.reg, provider, w.ref, w.types) == To(a.id))
  {
    if w.ref.Key? {
      var k := KeyFor(provider, w.ref);
      if k !in r.itemIndex { AddItemExtends(r, k); }
    }
  }

  /** Once allocated, a reference resolves to its id, and allocating it again changes nothing. */
  lemma AllocateAgain(r: Reg, provider: int, w: Want, later: Reg)
    requires Consistent(r) && Allocate(r, provider, w).Allocated? && w.types != {}
    requires Extends(Allocate(r, provider, w).reg, later)
    ensures Allocate(later, provider, w) == Allocated(later, Allocate(r, provider, w).id)
    ensures Resolve(later, provider, w.ref, w.types) == To(Allocate(r, provider, w).id)
  {
    AllocateExtends(r, provider, w);
    ResolveStable(Allocate(r, provider, w).reg, later, provider, w.ref, w.types);
  }

  lemma ExtendsTransitive(a: Reg, b: Reg, c: Reg)
    requires Extends(a, b) && Extends(b, c)
    ensures Extends(a, c)
  {
  }

  lemma {:induction false} AllocateAllExtends(r: Reg, provider: int, ws: seq<Want>)
    requires Consistent(r) && AllocateAll(r, provider, ws).All?
    ensures var a := AllocateAll(r, provider, ws);
            && Consistent(a.reg) && Extends(r, a.reg) && |a.ids| == |ws| && Distinct(a.ids)
            && a.reg.libraries == r.libraries && a.reg.libraryIndex == r.libraryIndex
            && forall i :: 0 <= i < |ws| ==> Wanted(a.reg, provider, ws[i], a.ids[i])
  {
    if ws != [] {
      var init := ws[..|ws| - 1];
      AllocateAllExtends(r, provider, init);
      AllocateExtends(AllocateAll(r, provider, init).reg, provider, ws[|ws| - 1]);
      var before, after := AllocateAll(r, provider, init), AllocateAll(r, provider, ws);
      forall i | 0 <= i < |ws| ensures Wanted(after.reg, provider, ws[i], after.ids[i]) {
        if i < |init| { assert Wanted(before.reg, provider, init[i], before.ids[i]); }
      }
    }
  }

  lemma {:induction false} AllocateAllAgain(r: Reg, provider: int, ws: seq<Want>, later: Reg)
    requires Consistent(r) && AllocateAll(r, provider, ws).All?
    requires forall i :: 0 <= i < |ws| ==> ws[i].types != {}
    requires Extends(AllocateAll(r, provider, ws).reg, later)
    ensures AllocateAll(later, provider, ws) == All(later, AllocateAll(r, provider, ws).ids)
    ensures |AllocateAll(r, provider, ws).ids| == |ws|
    ensures forall i :: 0 <= i < |ws| ==>
              Resolve(later, provider, ws[i].ref, ws[i].types) == To(AllocateAll(r, provider, ws).ids[i])
  {
    if ws != [] {
      var n := |ws| - 1;
      var before := AllocateAll(r, provider, ws[..n]);
      AllocateAllExtends(r, provider, ws[..n]);
      var last := Allocate(before.reg, provider, ws[n]);
      AllocateExtends(before.reg, provider, ws[n]);
      ExtendsTransitive(before.reg, last.reg, later);
      AllocateAllAgain(r, provider, ws[..n], later);
      AllocateAgain(before.reg, provider, ws[n], later);
      forall i | 0 <= i < |ws|
        ensures Resolve(later, provider, ws[i].ref, ws[i].types) == To(AllocateAll(r, provider, ws).ids[i])
      {
        if i < n {
          assert ws[..n][i] == ws[i];
          assert (before.ids + [last.id])[i] == before.ids[i];
        }
      }
    }
  }

  // --- What is found and what is created ---

  /** The parts of a key that a reference must get right: a native id of 1 to 4096 characters, and a library of the
      provider, or none for mixes and radios. */
  ghost predicate ProperKey(r: Reg, provider: int, ref: ItemRef) {
    && ref.Key? && 1 <= |ref.native| <= 4096
    && ref.library.In?
    && (ref.library.library.To? ==>
          ref.library.library.id in r.libraries && r.libraries[ref.library.library.id].key.provider == provider)
    && (ref.library.library.Null? ==> ref.kind in {54, 55})
  }

  /** Item `id` has the native id, the library and the type that the reference gives. */
  ghost predicate Matches(r: Reg, provider: int, ref: ItemRef, id: int) {
    && ref.Key? && ref.library.In? && id in r.items
    && r.items[id] == ItemKey(provider, ref.native, ref.library.library, ref.kind)
  }

  /** A reference resolves to exactly the provider's item that it names, by id or by key, if the item has a wanted
      type and, where an id is expected too, that id. */
  lemma ResolveExact(r: Reg, provider: int, ref: ItemRef, types: set<int>, id: int)
    requires Consistent(r)
    ensures Resolve(r, provider, ref, types) == To(id) <==>
              && id in r.items && r.items[id].provider == provider && (types == {} || r.items[id].kind in types)
              && match ref
                 case Id(named) => named == id
                 case Key(_, _, _, expected) =>
                   ProperKey(r, provider, ref) && Matches(r, provider, ref, id) && (expected.Some? ==> expected.value == id)
  {
  }

  /** A key that fits an item allocates it; another proper key creates an item, unless an id was expected; and
      whatever is not proper or not wanted is refused. */
  lemma AllocateExact(r: Reg, provider: int, w: Want)
    requires Consistent(r) && w.ref.Key?
    ensures var a := Allocate(r, provider, w);
            && (!ProperKey(r, provider, w.ref) || w.ref.kind !in w.types ==> a.Refused?)
            && (ProperKey(r, provider, w.ref) && w.ref.kind in w.types ==>
                  && (forall id :: Matches(r, provider, w.ref, id) ==>
                        a == if w.ref.expected in {None, Some(id)} then Allocated(r, id) else Refused)
                  && ((forall id :: !Matches(r, provider, w.ref, id)) ==>
                        if w.ref.expected.Some? then a.Refused?
                        else
                          && a.Allocated? && a.id !in r.items
                          && a.reg.items == r.items[a.id := ItemKey(provider, w.ref.native, w.ref.library.library, w.ref.kind)]))
  {
    if ProperKey(r, provider, w.ref) && w.ref.kind in w.types {
      var k := KeyFor(provider, w.ref);
      if k in r.itemIndex {
        assert Matches(r, provider, w.ref, r.itemIndex[k]);
      }
    }
  }
}
