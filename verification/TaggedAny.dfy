/**
 The tagged small-buffer `any` of meta/any.h: one word holds the address of the type_info and, in its two
 low bits, how the content is stored. Contents that are not trivially copyable are objects with a lifetime:
 they are numbered when constructed, and numbers are never reused.
 */
module TaggedAny {
  import opened Options

  /** A content: the address of its type_info and its value. */
  datatype Content = Content(ty: nat, data: int)

  /** type_info objects are aligned to four bytes. */
  predicate TypeAddress(ty: nat) {
    ty > 0 && ty % 4 == 0
  }

  /** How a type is stored: its bytes inline, an object inline, or an object in a heap block. */
  datatype Kind = Trivial | Small | Big

  function Tag(k: Kind): nat {
    match k
    case Trivial => 1
    case Small => 2
    case Big => 3
  }

  /**
   storage_t: the tagged word; the bytes of a trivial content; the object that lives in the buffer (tag 2)
   or at data_ptr (tag 3); and the type whose functions _RTTI points to.
   */
  datatype Cell = Cell(word: nat, bytes: int, obj: nat, rtti: nat)

  const NO_VALUE := Cell(0, 0, 0, 0)

  function TagOf(c: Cell): nat {
    c.word % 4
  }

  function TypeOf(c: Cell): nat {
    c.word - c.word % 4
  }

  /** The storage holds an object, inline or on the heap. */
  predicate Owns(c: Cell) {
    TagOf(c) >= 2
  }

  /** The word decodes to the type address and the tag it was made of. */
  lemma WordDecodes(ty: nat, k: Kind, bytes: int, obj: nat, rtti: nat)
    requires TypeAddress(ty)
    ensures var c := Cell(ty + Tag(k), bytes, obj, rtti);
            TypeOf(c) == ty && TagOf(c) == Tag(k) && c.word != 0 && (Owns(c) <==> !k.Trivial?)
  {
  }

  /**
   cells: the `any` objects that are alive. live: the objects that were constructed and not destroyed.
   lost: objects whose storage was overwritten by a move assignment. husks: inline objects whose value was
   moved away and whose storage was then cleared. fault: some object was copied or destroyed that was not
   alive, or by the functions of another type.
   */
  datatype World = World(
    cells: map<nat, Cell>, live: map<nat, Content>, destroyed: set<nat>,
    lost: set<nat>, husks: set<nat>, next: nat, fault: bool)

  function Start(): World {
    World(map[], map[], {}, {}, {}, 0, false)
  }

  datatype Op =
    | Default(id: nat)
    | Make(id: nat, content: Content)
    | Copy(id: nat, src: nat)
    | Move(id: nat, src: nat)
    | CopyAssign(id: nat, src: nat)
    | MoveAssign(id: nat, src: nat)
    | Destroy(id: nat)

  /** Constructors make a new object; the others and all sources need a live one. */
  predicate Allowed(w: World, op: Op) {
    match op
    case Default(id) => id !in w.cells
    case Make(id, content) => id !in w.cells && TypeAddress(content.ty)
    case Copy(id, src) => id !in w.cells && src in w.cells
    case Move(id, src) => id !in w.cells && src in w.cells
    case CopyAssign(id, src) => id in w.cells && src in w.cells
    case MoveAssign(id, src) => id in w.cells && src in w.cells
    case Destroy(id) => id in w.cells
  }

  function Construct(w: World, content: Content): World {
    w.(live := w.live[w.next := content], next := w.next + 1)
  }

  /** The destructor that _RTTI points to. */
  function Destruct(w: World, obj: nat, rtti: nat): World {
    if obj in w.live && w.live[obj].ty == rtti
    then w.(live := w.live - {obj}, destroyed := w.destroyed + {obj})
    else w.(fault := true)
  }

  /** The copy or move constructor that _RTTI points to makes a new object of the old one's value. */
  function Clone(w: World, c: Cell): (World, Cell) {
    if c.obj in w.live && w.live[c.obj].ty == c.rtti
    then (Construct(w, w.live[c.obj]), c.(obj := w.next))
    else (w.(fault := true), c)
  }

  /** any(const T&). */
  function MakeCell(w: World, kind: nat -> Kind, content: Content): (World, Cell) {
    var word := content.ty + Tag(kind(content.ty));
    if kind(content.ty).Trivial? then (w, Cell(word, content.data, 0, 0))
    else (Construct(w, content), Cell(word, 0, w.next, content.ty))
  }

  /** any(const any&): bytes are copied, objects are cloned. */
  function CopyCell(w: World, c: Cell): (World, Cell) {
    if Owns(c) then Clone(w, c) else (w, c)
  }

  /** any(any&&): an inline object is moved into a new one and left behind; all else is copied bytewise. */
  function MoveCell(w: World, c: Cell): (World, Cell) {
    if TagOf(c) == 2 then
      var (w1, d) := Clone(w, c);
      (w1.(husks := w.husks + {c.obj}), d)
    else (w, c)
  }

  /** ~any. */
  function Release(w: World, c: Cell): World {
    if c.word != 0 && Owns(c) then Destruct(w, c.obj, c.rtti) else w
  }

  /** A storage is overwritten or cleared, and nothing is called. */
  function Drop(w: World, c: Cell): World {
    if Owns(c) then w.(lost := w.lost + {c.obj}) else w
  }

  function Cleared(c: Cell): Cell {
    c.(word := 0)
  }

  function Apply(w: World, kind: nat -> Kind, op: Op): World
    requires Allowed(w, op)
  {
    match op
    case Default(id) => w.(cells := w.cells[id := NO_VALUE])
    case Make(id, content) =>
      var (w1, c) := MakeCell(w, kind, content);
      w1.(cells := w1.cells[id := c])
    case Copy(id, src) =>
      var (w1, c) := CopyCell(w, w.cells[src]);
      w1.(cells := w1.cells[id := c])
    case Move(id, src) =>
      var (w1, c) := MoveCell(w, w.cells[src]);
      w1.(cells := w1.cells[id := c][src := Cleared(w.cells[src])])
    case CopyAssign(id, src) =>
      if id == src then w
      else
        // a temporary copy is swapped with the target and destroyed
        var (w1, c) := CopyCell(w, w.cells[src]);
        Release(w1, w.cells[id]).(cells := w1.cells[id := c])
    case MoveAssign(id, src) =>
      if id == src then w
      else
        // the storages are swapped and the source is cleared
        Drop(w, w.cells[id]).(cells := w.cells[id := w.cells[src]][src := Cleared(w.cells[id])])
    case Destroy(id) => Release(w, w.cells[id]).(cells := w.cells - {id})
  }

  predicate CanRun(w: World, kind: nat -> Kind, ops: seq<Op>)
    decreases ops
  {
    ops == [] || (Allowed(w, ops[0]) && CanRun(Apply(w, kind, ops[0]), kind, ops[1..]))
  }

  function Run(w: World, kind: nat -> Kind, ops: seq<Op>): World
    requires CanRun(w, kind, ops)
    decreases ops
  {
    if ops == [] then w else Run(Apply(w, kind, ops[0]), kind, ops[1..])
  }

  // ----- Value semantics -----

  /** What an `any` holds, as any_cast of the right type reads it. */
  function Holds(w: World, c: Cell): Option<Content> {
    if c.word == 0 then None
    else if !Owns(c) then Some(Content(TypeOf(c), c.bytes))
    else if c.obj in w.live then Some(w.live[c.obj]) else None
  }

  function Values(w: World): map<nat, Option<Content>> {
    map id | id in w.cells :: Holds(w, w.cells[id])
  }

  /** The same operations on plain optional values. */
  function ApplyPlain(m: map<nat, Option<Content>>, op: Op): map<nat, Option<Content>> {
    match op
    case Default(id) => m[id := None]
    case Make(id, content) => m[id := Some(content)]
    case Copy(id, src) => if src in m then m[id := m[src]] else m
    case Move(id, src) => if src in m then m[id := m[src]][src := None] else m
    case CopyAssign(id, src) => if src in m then m[id := m[src]] else m
    case MoveAssign(id, src) => if src in m && id != src then m[id := m[src]][src := None] else m
    case Destroy(id) => m - {id}
  }

  function RunPlain(m: map<nat, Option<Content>>, ops: seq<Op>): map<nat, Option<Content>>
    decreases |ops|
  {
    if ops == [] then m else RunPlain(ApplyPlain(m, ops[0]), ops[1..])
  }

  // ----- Ownership -----

  /** Two `any` objects do not hold the same object. */
  predicate Apart(c: Cell, d: Cell) {
    Owns(c) && Owns(d) ==> c.obj != d.obj
  }

  ghost predicate HasOwner(w: World, obj: nat) {
    exists id :: id in w.cells && Owns(w.cells[id]) && w.cells[id].obj == obj
  }

  /** The object in the storage is alive, was not dropped, and is of the type that word and _RTTI name. */
  ghost predicate ObjectOk(w: World, c: Cell) {
    && c.obj in w.live && c.obj !in w.lost && c.obj !in w.husks
    && w.live[c.obj].ty == TypeOf(c) == c.rtti
  }

  ghost predicate CellOk(w: World, kind: nat -> Kind, c: Cell) {
    c.word != 0 ==>
      TypeAddress(TypeOf(c)) && TagOf(c) == Tag(kind(TypeOf(c))) && (Owns(c) ==> ObjectOk(w, c))
  }

  /** A live object is held by an `any`, or was dropped. */
  ghost predicate LiveOk(w: World, obj: nat) {
    obj < w.next && (obj in w.lost || obj in w.husks || HasOwner(w, obj))
  }

  ghost predicate Inv(w: World, kind: nat -> Kind) {
    && !w.fault
    && (forall id | id in w.cells :: CellOk(w, kind, w.cells[id]))
    && (forall a, b | a in w.cells && b in w.cells && a != b :: Apart(w.cells[a], w.cells[b]))
    && (forall p | p in w.live :: LiveOk(w, p))
    && w.lost <= w.live.Keys && w.husks <= w.live.Keys
    && (forall p: nat | p < w.next :: p in w.live || p in w.destroyed)
    && (forall p | p in w.destroyed :: p < w.next && p !in w.live)
  }

  lemma StartInv(kind: nat -> Kind)
    ensures Inv(Start(), kind)
  {
  }

  lemma OwnerStays(w: World, t: World, obj: nat, id: nat)
    requires id in t.cells && Owns(t.cells[id]) && t.cells[id].obj == obj
    ensures HasOwner(t, obj)
  {
  }

  /** The cells that were there stay good when an object is constructed. */
  lemma ConstructKeeps(w: World, kind: nat -> Kind, content: Content, c: Cell)
    requires Inv(w, kind) && CellOk(w, kind, c)
    ensures CellOk(Construct(w, content), kind, c)
    ensures Owns(c) ==> c.obj != w.next
  {
    if Owns(c) { assert LiveOk(w, c.obj); }
  }

  /** A new `any` with its own object, if it has one. */
  lemma AddedInv(w: World, kind: nat -> Kind, id: nat, c: Cell, content: Content)
    requires Inv(w, kind) && id !in w.cells
    requires Owns(c) && c.obj == w.next && CellOk(Construct(w, content), kind, c)
    ensures Inv(Construct(w, content).(cells := w.cells[id := c]), kind)
  {
    var t := Construct(w, content).(cells := w.cells[id := c]);
    forall i | i in w.cells ensures CellOk(t, kind, w.cells[i]) && Apart(w.cells[i], c) {
      assert CellOk(w, kind, w.cells[i]);
      ConstructKeeps(w, kind, content, w.cells[i]);
    }
    assert CellOk(t, kind, c);
    forall p | p in t.live ensures LiveOk(t, p) {
      if p == w.next {
        OwnerStays(w, t, p, id);
      } else {
        assert LiveOk(w, p);
        if HasOwner(w, p) {
          var i :| i in w.cells && Owns(w.cells[i]) && w.cells[i].obj == p;
          OwnerStays(w, t, p, i);
        }
      }
    }
  }

  /** A new `any` without an object. */
  lemma PlainInv(w: World, kind: nat -> Kind, id: nat, c: Cell)
    requires Inv(w, kind) && id !in w.cells && !Owns(c) && CellOk(w, kind, c)
    ensures Inv(w.(cells := w.cells[id := c]), kind)
  {
    var t := w.(cells := w.cells[id := c]);
    forall p | p in t.live ensures LiveOk(t, p) {
      assert LiveOk(w, p);
      if HasOwner(w, p) {
        var i :| i in w.cells && Owns(w.cells[i]) && w.cells[i].obj == p;
        OwnerStays(w, t, p, i);
      }
    }
    forall i | i in t.cells ensures CellOk(t, kind, t.cells[i]) {
      assert i != id ==> CellOk(w, kind, w.cells[i]);
    }
  }

  lemma CopiedInv(w: World, kind: nat -> Kind, id: nat, src: nat)
    requires Inv(w, kind) && id !in w.cells && src in w.cells
    ensures Inv(Apply(w, kind, Copy(id, src)), kind)
  {
    var c := w.cells[src];
    assert CellOk(w, kind, c);
    if Owns(c) {
      AddedInv(w, kind, id, c.(obj := w.next), w.live[c.obj]);
    } else {
      PlainInv(w, kind, id, c);
    }
  }

  lemma MadeInv(w: World, kind: nat -> Kind, id: nat, content: Content)
    requires Inv(w, kind) && id !in w.cells && TypeAddress(content.ty)
    ensures Inv(Apply(w, kind, Make(id, content)), kind)
  {
    var (w1, c) := MakeCell(w, kind, content);
    WordDecodes(content.ty, kind(content.ty), c.bytes, c.obj, c.rtti);
    if Owns(c) {
      AddedInv(w, kind, id, c, content);
    } else {
      PlainInv(w, kind, id, c);
    }
  }

  lemma DestroyedInv(w: World, kind: nat -> Kind, id: nat)
    requires Inv(w, kind) && id in w.cells
    ensures Inv(Apply(w, kind, Destroy(id)), kind)
  {
    var t := Apply(w, kind, Destroy(id));
    assert CellOk(w, kind, w.cells[id]);
    forall i | i in t.cells ensures CellOk(t, kind, t.cells[i]) {
      assert CellOk(w, kind, w.cells[i]) && Apart(w.cells[id], w.cells[i]);
    }
    forall p | p in t.live ensures LiveOk(t, p) {
      assert LiveOk(w, p);
      if HasOwner(w, p) {
        var i :| i in w.cells && Owns(w.cells[i]) && w.cells[i].obj == p;
        if i != id { OwnerStays(w, t, p, i); }
      }
    }
  }

  // ----- Storages that are handed over or cleared -----

  /** The source of a move construction from an inline object is cleared; its object stays behind. */
  lemma AbandonedInv(w: World, kind: nat -> Kind, src: nat)
    requires Inv(w, kind) && src in w.cells && Owns(w.cells[src])
    ensures Inv(w.(cells := w.cells[src := Cleared(w.cells[src])], husks := w.husks + {w.cells[src].obj}), kind)
  {
    var t := w.(cells := w.cells[src := Cleared(w.cells[src])], husks := w.husks + {w.cells[src].obj});
    assert CellOk(w, kind, w.cells[src]);
    forall i | i in t.cells ensures CellOk(t, kind, t.cells[i]) {
      assert CellOk(w, kind, w.cells[i]) && (i != src ==> Apart(w.cells[i], w.cells[src]));
    }
    forall p | p in t.live ensures LiveOk(t, p) {
      assert LiveOk(w, p);
      if HasOwner(w, p) {
        var i :| i in w.cells && Owns(w.cells[i]) && w.cells[i].obj == p;
        if i != src { OwnerStays(w, t, p, i); }
      }
    }
  }

  /** Moving an inline object is copying it and abandoning the original. */
  lemma MoveSmall(w: World, kind: nat -> Kind, id: nat, src: nat)
    requires Inv(w, kind) && id !in w.cells && src in w.cells && TagOf(w.cells[src]) == 2
    ensures src in Apply(w, kind, Copy(id, src)).cells && Apply(w, kind, Copy(id, src)).cells[src] == w.cells[src]
    ensures Apply(w, kind, Move(id, src)) ==
      var t := Apply(w, kind, Copy(id, src));
      t.(cells := t.cells[src := Cleared(w.cells[src])], husks := t.husks + {w.cells[src].obj})
  {
    assert CellOk(w, kind, w.cells[src]);
  }

  /** The storage of src goes to id, what id held is dropped, and src is cleared. */
  ghost function HandOver(w: World, id: nat, src: nat, left: Cell): World
    requires src in w.cells
  {
    (if id in w.cells then Drop(w, w.cells[id]) else w).(cells := w.cells[id := w.cells[src]][src := left])
  }

  lemma HandOverCells(w: World, kind: nat -> Kind, id: nat, src: nat, left: Cell, i: nat)
    requires Inv(w, kind) && src in w.cells && id != src && left.word == 0 && i in HandOver(w, id, src, left).cells
    ensures CellOk(HandOver(w, id, src, left), kind, HandOver(w, id, src, left).cells[i])
  {
    assert CellOk(w, kind, w.cells[src]);
    if id in w.cells { assert CellOk(w, kind, w.cells[id]) && Apart(w.cells[id], w.cells[src]); }
    if i != id && i != src {
      assert CellOk(w, kind, w.cells[i]);
      if id in w.cells { assert Apart(w.cells[id], w.cells[i]); }
    }
  }

  lemma HandOverApart(w: World, kind: nat -> Kind, id: nat, src: nat, left: Cell)
    requires Inv(w, kind) && src in w.cells && id != src && left.word == 0
    ensures var cells := HandOver(w, id, src, left).cells;
            forall a, b | a in cells && b in cells && a != b :: Apart(cells[a], cells[b])
  {
    var cells := HandOver(w, id, src, left).cells;
    forall a, b | a in cells && b in cells && a != b ensures Apart(cells[a], cells[b]) {
      if a != src && b != src {
        assert Apart(w.cells[if a == id then src else a], w.cells[if b == id then src else b]);
      }
    }
  }

  lemma HandOverInv(w: World, kind: nat -> Kind, id: nat, src: nat, left: Cell)
    requires Inv(w, kind) && src in w.cells && id != src && left.word == 0
    ensures Inv(HandOver(w, id, src, left), kind)
  {
    var t := HandOver(w, id, src, left);
    forall i | i in t.cells ensures CellOk(t, kind, t.cells[i]) { HandOverCells(w, kind, id, src, left, i); }
    HandOverApart(w, kind, id, src, left);
    if id in w.cells { assert CellOk(w, kind, w.cells[id]); }
    forall p | p in t.live ensures LiveOk(t, p) {
      assert LiveOk(w, p);
      if p !in t.lost && p !in t.husks {
        var i :| i in w.cells && Owns(w.cells[i]) && w.cells[i].obj == p;
        OwnerStays(w, t, p, if i == src then id else i);
      }
    }
  }

  lemma MovedInv(w: World, kind: nat -> Kind, id: nat, src: nat)
    requires Inv(w, kind) && id !in w.cells && src in w.cells
    ensures Inv(Apply(w, kind, Move(id, src)), kind)
  {
    if TagOf(w.cells[src]) == 2 {
      CopiedInv(w, kind, id, src);
      MoveSmall(w, kind, id, src);
      AbandonedInv(Apply(w, kind, Copy(id, src)), kind, src);
    } else {
      HandOverInv(w, kind, id, src, Cleared(w.cells[src]));
    }
  }

  // ----- Copy assignment -----

  /** Copying one object and then destroying another is the same as the other way round. */
  lemma CloneDestructCommute(w: World, from: Cell, to: Cell)
    requires from.obj in w.live && w.live[from.obj].ty == from.rtti
    requires to.obj in w.live && w.live[to.obj].ty == to.rtti
    requires from.obj != to.obj && to.obj != w.next
    ensures Destruct(Clone(w, from).0, to.obj, to.rtti) == Clone(Destruct(w, to.obj, to.rtti), from).0
    ensures Clone(w, from).1 == Clone(Destruct(w, to.obj, to.rtti), from).1
  {
    var v := w.live[from.obj];
    assert w.live[w.next := v] - {to.obj} == (w.live - {to.obj})[w.next := v];
  }

  /** Copying before the old content is destroyed is the same as copying after. */
  lemma CopyAssignOrder(w: World, kind: nat -> Kind, id: nat, src: nat)
    requires Inv(w, kind) && id in w.cells && src in w.cells && id != src
    ensures src in Apply(w, kind, Destroy(id)).cells && id !in Apply(w, kind, Destroy(id)).cells
    ensures Apply(w, kind, CopyAssign(id, src)) == Apply(Apply(w, kind, Destroy(id)), kind, Copy(id, src))
  {
    var from, to := w.cells[src], w.cells[id];
    var d := Release(w, to);
    assert (w.cells - {id})[id := CopyCell(w, from).1] == w.cells[id := CopyCell(w, from).1];
    assert CellOk(w, kind, from) && CellOk(w, kind, to) && Apart(to, from);
    assert Release(CopyCell(w, from).0, to) == CopyCell(d, from).0 && CopyCell(w, from).1 == CopyCell(d, from).1 by {
      if Owns(from) && Owns(to) {
        assert LiveOk(w, to.obj);
        CloneDestructCommute(w, from, to);
      }
    }
    CopyIgnoresCells(d, from, w.cells - {id});
  }

  lemma CopyIgnoresCells(w: World, c: Cell, cells: map<nat, Cell>)
    ensures CopyCell(w.(cells := cells), c) == (CopyCell(w, c).0.(cells := cells), CopyCell(w, c).1)
  {
  }

  lemma CopyAssignedInv(w: World, kind: nat -> Kind, id: nat, src: nat)
    requires Inv(w, kind) && id in w.cells && src in w.cells && id != src
    ensures Inv(Apply(w, kind, CopyAssign(id, src)), kind)
  {
    DestroyedInv(w, kind, id);
    CopyAssignOrder(w, kind, id, src);
    CopiedInv(Apply(w, kind, Destroy(id)), kind, id, src);
  }

  lemma StepInv(w: World, kind: nat -> Kind, op: Op)
    requires Inv(w, kind) && Allowed(w, op)
    ensures Inv(Apply(w, kind, op), kind)
  {
    match op
    case Default(id) => PlainInv(w, kind, id, NO_VALUE);
    case Make(id, content) => MadeInv(w, kind, id, content);
    case Copy(id, src) => CopiedInv(w, kind, id, src);
    case Move(id, src) => MovedInv(w, kind, id, src);
    case CopyAssign(id, src) => if id != src { CopyAssignedInv(w, kind, id, src); }
    case MoveAssign(id, src) => if id != src { HandOverInv(w, kind, id, src, Cleared(w.cells[id])); }
    case Destroy(id) => DestroyedInv(w, kind, id);
  }

  // ----- Every operation acts as on plain values -----

  lemma StepValues(w: World, kind: nat -> Kind, op: Op)
    requires Inv(w, kind) && Allowed(w, op)
    ensures Values(Apply(w, kind, op)) == ApplyPlain(Values(w), op)
  {
    StepKeys(w, kind, op);
    var t := Apply(w, kind, op);
    var m := ApplyPlain(Values(w), op);
    forall i | i in t.cells ensures Holds(t, t.cells[i]) == m[i] {
      StepHolds(w, kind, op, i);
    }
  }

  lemma StepKeys(w: World, kind: nat -> Kind, op: Op)
    requires Allowed(w, op)
    ensures Apply(w, kind, op).cells.Keys == ApplyPlain(Values(w), op).Keys
  {
  }

  lemma StepHolds(w: World, kind: nat -> Kind, op: Op, i: nat)
    requires Inv(w, kind) && Allowed(w, op) && i in Apply(w, kind, op).cells
    ensures i in ApplyPlain(Values(w), op)
    ensures Holds(Apply(w, kind, op), Apply(w, kind, op).cells[i]) == ApplyPlain(Values(w), op)[i]
  {
    StepKeys(w, kind, op);
    match op
    case Default(_) =>
    case Make(id, content) => MakeHolds(w, kind, id, content, i);
    case Copy(id, src) => CopyHolds(w, kind, id, src, i);
    case Move(id, src) => MoveHolds(w, kind, id, src, i);
    case CopyAssign(id, src) => if id != src { CopyAssignHolds(w, kind, id, src, i); }
    case MoveAssign(_, _) =>
    case Destroy(id) => DestroyHolds(w, kind, id, i);
  }

  lemma MakeHolds(w: World, kind: nat -> Kind, id: nat, content: Content, i: nat)
    requires Inv(w, kind) && Allowed(w, Make(id, content)) && (i == id || i in w.cells)
    ensures var t := Apply(w, kind, Make(id, content));
            Holds(t, t.cells[i]) == if i == id then Some(content) else Holds(w, w.cells[i])
  {
    var (w1, c) := MakeCell(w, kind, content);
    WordDecodes(content.ty, kind(content.ty), c.bytes, c.obj, c.rtti);
    if i != id { NotNext(w, kind, i); }
  }

  /** Construction does not touch the object an `any` holds. */
  lemma NotNext(w: World, kind: nat -> Kind, i: nat)
    requires Inv(w, kind) && i in w.cells
    ensures Owns(w.cells[i]) ==> w.cells[i].obj in w.live && w.cells[i].obj < w.next && ObjectOk(w, w.cells[i])
  {
    assert CellOk(w, kind, w.cells[i]);
    if Owns(w.cells[i]) { assert LiveOk(w, w.cells[i].obj); }
  }

  lemma CopyHolds(w: World, kind: nat -> Kind, id: nat, src: nat, i: nat)
    requires Inv(w, kind) && Allowed(w, Copy(id, src)) && (i == id || i in w.cells)
    ensures var t := Apply(w, kind, Copy(id, src));
            Holds(t, t.cells[i]) == if i == id then Holds(w, w.cells[src]) else Holds(w, w.cells[i])
  {
    NotNext(w, kind, src);
    if i != id { NotNext(w, kind, i); }
  }

  lemma MoveHolds(w: World, kind: nat -> Kind, id: nat, src: nat, i: nat)
    requires Inv(w, kind) && Allowed(w, Move(id, src)) && (i == id || i in w.cells)
    ensures var t := Apply(w, kind, Move(id, src));
            Holds(t, t.cells[i]) == if i == id then Holds(w, w.cells[src])
                                    else if i == src then None else Holds(w, w.cells[i])
  {
    if TagOf(w.cells[src]) == 2 {
      MoveSmall(w, kind, id, src);
      CopyHolds(w, kind, id, src, i);
    }
  }

  lemma CopyAssignHolds(w: World, kind: nat -> Kind, id: nat, src: nat, i: nat)
    requires Inv(w, kind) && id != src && Allowed(w, CopyAssign(id, src)) && i in w.cells
    ensures var t := Apply(w, kind, CopyAssign(id, src));
            i in t.cells && Holds(t, t.cells[i]) == Holds(w, w.cells[if i == id then src else i])
  {
    DestroyedInv(w, kind, id);
    CopyAssignOrder(w, kind, id, src);
    CopyHolds(Apply(w, kind, Destroy(id)), kind, id, src, i);
    DestroyHolds(w, kind, id, if i == id then src else i);
  }

  lemma DestroyHolds(w: World, kind: nat -> Kind, id: nat, i: nat)
    requires Inv(w, kind) && id in w.cells && i in w.cells && i != id
    ensures var t := Apply(w, kind, Destroy(id));
            i in t.cells && t.cells[i] == w.cells[i] && Holds(t, t.cells[i]) == Holds(w, w.cells[i])
  {
    assert CellOk(w, kind, w.cells[id]) && CellOk(w, kind, w.cells[i]) && Apart(w.cells[id], w.cells[i]);
  }

  lemma {:induction false} RunInv(w: World, kind: nat -> Kind, ops: seq<Op>)
    requires Inv(w, kind) && CanRun(w, kind, ops)
    ensures Inv(Run(w, kind, ops), kind) && Values(Run(w, kind, ops)) == RunPlain(Values(w), ops)
    decreases ops
  {
    if ops != [] {
      StepInv(w, kind, ops[0]);
      StepValues(w, kind, ops[0]);
      RunInv(Apply(w, kind, ops[0]), kind, ops[1..]);
    }
  }

  // ----- What is never destroyed -----

  /** Three ways to go wrong: a value dropped, a moved-from object left behind, a heap block dropped. */
  datatype Loss = Value | Husk | Block

  predicate Loses(w: World, op: Op, loss: Loss)
    requires Allowed(w, op)
  {
    match loss
    case Value => op.MoveAssign? && op.id != op.src && TagOf(w.cells[op.id]) >= 2
    case Husk => op.Move? && TagOf(w.cells[op.src]) == 2
    case Block => op.MoveAssign? && op.id != op.src && TagOf(w.cells[op.id]) == 3
  }

  /** Some operation of the program does. */
  predicate LosesSomewhere(w: World, kind: nat -> Kind, ops: seq<Op>, loss: Loss)
    requires CanRun(w, kind, ops)
    decreases ops
  {
    ops != [] && (Loses(w, ops[0], loss) || LosesSomewhere(Apply(w, kind, ops[0]), kind, ops[1..], loss))
  }

  ghost predicate HasLost(w: World, kind: nat -> Kind, loss: Loss) {
    match loss
    case Value => w.lost != {}
    case Husk => w.husks != {}
    case Block => exists p :: p in w.lost && p in w.live && kind(w.live[p].ty).Big?
  }

  /** Construction and destruction of other objects leave the dropped ones as they were. */
  ghost predicate DroppedStay(w: World, t: World) {
    forall p | p in w.lost + w.husks :: p in t.live && p in w.live && t.live[p] == w.live[p]
  }

  lemma ReleaseKeepsDropped(w: World, kind: nat -> Kind, c: Cell)
    requires w.lost <= w.live.Keys && w.husks <= w.live.Keys && CellOk(w, kind, c)
    ensures DroppedStay(w, Release(w, c))
    ensures Release(w, c).lost == w.lost && Release(w, c).husks == w.husks
  {
  }

  lemma CopyKeepsDropped(w: World, kind: nat -> Kind, id: nat, src: nat)
    requires Inv(w, kind) && src in w.cells && id !in w.cells
    ensures var t := Apply(w, kind, Copy(id, src));
            DroppedStay(w, t) && t.lost == w.lost && t.husks == w.husks
  {
    NotNext(w, kind, src);
    NextIsNew(w, kind);
  }

  lemma CopyAssignKeepsDropped(w: World, kind: nat -> Kind, id: nat, src: nat)
    requires Inv(w, kind) && src in w.cells && id in w.cells && id != src
    ensures var t := Apply(w, kind, CopyAssign(id, src));
            DroppedStay(w, t) && t.lost == w.lost && t.husks == w.husks
  {
    assert CellOk(w, kind, w.cells[id]);
    ReleaseKeepsDropped(w, kind, w.cells[id]);
    DestroyedInv(w, kind, id);
    CopyAssignOrder(w, kind, id, src);
    CopyKeepsDropped(Apply(w, kind, Destroy(id)), kind, id, src);
  }

  /** A step drops what `Loses` says and leaves everything dropped before as it was. */
  lemma StepDrops(w: World, kind: nat -> Kind, op: Op)
    requires Inv(w, kind) && Allowed(w, op)
    ensures Apply(w, kind, op).lost == w.lost + if Loses(w, op, Value) then {w.cells[op.id].obj} else {}
    ensures Apply(w, kind, op).husks == w.husks + if Loses(w, op, Husk) then {w.cells[op.src].obj} else {}
    ensures DroppedStay(w, Apply(w, kind, op))
  {
    NextIsNew(w, kind);
    match op
    case Destroy(id) => assert CellOk(w, kind, w.cells[id]); ReleaseKeepsDropped(w, kind, w.cells[id]);
    case Copy(id, src) => CopyKeepsDropped(w, kind, id, src);
    case CopyAssign(id, src) => if id != src { CopyAssignKeepsDropped(w, kind, id, src); }
    case Move(id, src) =>
      if TagOf(w.cells[src]) == 2 {
        MoveSmall(w, kind, id, src);
        CopyKeepsDropped(w, kind, id, src);
      }
    case _ =>
  }

  /** The next number belongs to no object yet. */
  lemma NextIsNew(w: World, kind: nat -> Kind)
    requires Inv(w, kind)
    ensures w.next !in w.live
  {
    forall p | p in w.live ensures p < w.next { assert LiveOk(w, p); }
  }

  lemma StepLoss(w: World, kind: nat -> Kind, op: Op, loss: Loss)
    requires Inv(w, kind) && Allowed(w, op)
    ensures HasLost(Apply(w, kind, op), kind, loss) <==> HasLost(w, kind, loss) || Loses(w, op, loss)
  {
    StepDrops(w, kind, op);
    if loss.Block? { BlockLoss(w, kind, op); }
  }

  lemma BlockLoss(w: World, kind: nat -> Kind, op: Op)
    requires Inv(w, kind) && Allowed(w, op)
    ensures HasLost(Apply(w, kind, op), kind, Block) <==> HasLost(w, kind, Block) || Loses(w, op, Block)
  {
    var t := Apply(w, kind, op);
    StepDrops(w, kind, op);
    if Loses(w, op, Value) {
      var c := w.cells[op.id];
      assert CellOk(w, kind, c);
      assert c.obj in t.lost && c.obj in t.live && t.live[c.obj] == w.live[c.obj];
      assert TagOf(c) == 3 <==> kind(t.live[c.obj].ty).Big?;
    }
  }

  lemma {:induction false} RunLoss(w: World, kind: nat -> Kind, ops: seq<Op>, loss: Loss)
    requires Inv(w, kind) && CanRun(w, kind, ops)
    ensures HasLost(Run(w, kind, ops), kind, loss) <==> HasLost(w, kind, loss) || LosesSomewhere(w, kind, ops, loss)
    decreases ops
  {
    if ops != [] {
      StepInv(w, kind, ops[0]);
      StepLoss(w, kind, ops[0], loss);
      RunLoss(Apply(w, kind, ops[0]), kind, ops[1..], loss);
    }
  }

  // ----- Main results -----

  ghost predicate Reached(kind: nat -> Kind, ops: seq<Op>, w: World) {
    CanRun(Start(), kind, ops) && w == Run(Start(), kind, ops)
  }

  /** Any program on `any` objects computes what it computes on plain optional values. */
  lemma ValueSemantics(kind: nat -> Kind, ops: seq<Op>, w: World)
    requires Reached(kind, ops, w)
    ensures Values(w) == RunPlain(map[], ops)
  {
    StartInv(kind);
    RunInv(Start(), kind, ops);
    assert Values(Start()) == map[];
  }

  /**
   No object is copied or destroyed when it is not alive - so none is destroyed twice - or by the functions
   of another type, and none is held by two `any` objects.
   */
  lemma OwnershipIsUnique(kind: nat -> Kind, ops: seq<Op>, w: World)
    requires Reached(kind, ops, w)
    ensures !w.fault
    ensures forall a, b | a in w.cells && b in w.cells && a != b :: Apart(w.cells[a], w.cells[b])
    ensures forall id | id in w.cells && Owns(w.cells[id]) ::
              w.cells[id].obj in w.live && w.cells[id].obj !in w.destroyed
  {
    StartInv(kind);
    RunInv(Start(), kind, ops);
    forall id | id in w.cells && Owns(w.cells[id])
      ensures w.cells[id].obj in w.live && w.cells[id].obj !in w.destroyed
    {
      assert CellOk(w, kind, w.cells[id]);
    }
  }

  /** When every `any` is gone, the objects still alive are exactly the dropped values and the moved-from objects. */
  lemma OnlyDroppedStay(kind: nat -> Kind, ops: seq<Op>, w: World)
    requires Reached(kind, ops, w) && w.cells == map[]
    ensures w.live.Keys == w.lost + w.husks
    ensures forall p: nat :: p < w.next <==> p in w.destroyed || p in w.lost + w.husks
  {
    StartInv(kind);
    RunInv(Start(), kind, ops);
    forall p | p in w.live ensures p in w.lost + w.husks {
      assert LiveOk(w, p);
    }
  }

  /**
   A program that destroys all its `any` objects destroys every object it constructed - each once - if and
   only if it never move-assigns over a content that is an object, and never move-constructs from an inline one.
   */
  lemma DestroyedExactlyOnce(kind: nat -> Kind, ops: seq<Op>, w: World)
    requires Reached(kind, ops, w) && w.cells == map[]
    ensures !w.fault
    ensures (forall p: nat | p < w.next :: p in w.destroyed) <==>
              !LosesSomewhere(Start(), kind, ops, Value) && !LosesSomewhere(Start(), kind, ops, Husk)
  {
    StartInv(kind);
    RunInv(Start(), kind, ops);
    OnlyDroppedStay(kind, ops, w);
    RunLoss(Start(), kind, ops, Value);
    RunLoss(Start(), kind, ops, Husk);
    if p :| p in w.lost + w.husks {
      assert p in w.live && p < w.next;
    }
  }

  /** Such a program leaves a value undestroyed if and only if it move-assigns over a content that is an object. */
  lemma ValuesLeakExactly(kind: nat -> Kind, ops: seq<Op>, w: World)
    requires Reached(kind, ops, w) && w.cells == map[]
    ensures (exists p :: p in w.live && p in w.lost) <==> LosesSomewhere(Start(), kind, ops, Value)
  {
    StartInv(kind);
    RunInv(Start(), kind, ops);
    RunLoss(Start(), kind, ops, Value);
    if p :| p in w.lost { assert p in w.live; }
  }

  /** It leaves a heap block allocated if and only if it move-assigns over a content on the heap. */
  lemma BlocksLeakExactly(kind: nat -> Kind, ops: seq<Op>, w: World)
    requires Reached(kind, ops, w) && w.cells == map[]
    ensures (exists p :: p in w.live && kind(w.live[p].ty).Big?) <==> LosesSomewhere(Start(), kind, ops, Block)
  {
    StartInv(kind);
    RunInv(Start(), kind, ops);
    OnlyDroppedStay(kind, ops, w);
    RunLoss(Start(), kind, ops, Block);
    RunHusks(Start(), kind, ops);
  }

  /** Moved-from objects that stay behind are inline. */
  ghost predicate HusksInline(w: World, kind: nat -> Kind) {
    forall p | p in w.husks :: p in w.live && kind(w.live[p].ty).Small?
  }

  lemma StepHusks(w: World, kind: nat -> Kind, op: Op)
    requires Inv(w, kind) && Allowed(w, op) && HusksInline(w, kind)
    ensures HusksInline(Apply(w, kind, op), kind)
  {
    StepDrops(w, kind, op);
    if op.Move? {
      NotNext(w, kind, op.src);
      assert CellOk(w, kind, w.cells[op.src]);
    }
  }

  lemma {:induction false} RunHusks(w: World, kind: nat -> Kind, ops: seq<Op>)
    requires Inv(w, kind) && CanRun(w, kind, ops) && HusksInline(w, kind)
    ensures HusksInline(Run(w, kind, ops), kind)
    decreases ops
  {
    if ops != [] {
      StepInv(w, kind, ops[0]);
      StepHusks(w, kind, ops[0]);
      RunHusks(Apply(w, kind, ops[0]), kind, ops[1..]);
    }
  }

  // ----- What programs can do -----

  /** A new name can be given to a new object, and every live object takes part in every operation, also with itself. */
  lemma AnyOperation(w: World, id: nat, src: nat, content: Content)
    requires src in w.cells
    ensures id !in w.cells ==> Allowed(w, Default(id)) && Allowed(w, Copy(id, src)) && Allowed(w, Move(id, src))
    ensures id !in w.cells && content.ty > 0 && content.ty % 4 == 0 ==> Allowed(w, Make(id, content))
    ensures id in w.cells ==> Allowed(w, CopyAssign(id, src)) && Allowed(w, MoveAssign(id, src))
    ensures id in w.cells ==> Allowed(w, Destroy(id))
  {
  }

  /** Two contents, the second moved over the first, both destroyed: what the first one held stays for ever. */
  lemma MoveAssignLeaks(kind: nat -> Kind, content: Content, other: Content)
    requires TypeAddress(content.ty) && TypeAddress(other.ty) && !kind(content.ty).Trivial?
    ensures var ops := [Make(0, content), Make(1, other), MoveAssign(0, 1), Destroy(1), Destroy(0)];
            exists w ::
              Reached(kind, ops, w) && w.cells == map[] && w.lost == {0} && 0 in w.live && w.live[0] == content
  {
    var first := Make(0, content);
    var w1 := Apply(Start(), kind, first);
    WordDecodes(content.ty, kind(content.ty), 0, 0, content.ty);
    var w2 := Apply(w1, kind, Make(1, other));
    WordDecodes(other.ty, kind(other.ty), MakeCell(w1, kind, other).1.bytes, 1, MakeCell(w1, kind, other).1.rtti);
    var w3 := Apply(w2, kind, MoveAssign(0, 1));
    var w4 := Apply(w3, kind, Destroy(1));
    var w5 := Apply(w4, kind, Destroy(0));
    var ops := [first, Make(1, other), MoveAssign(0, 1), Destroy(1), Destroy(0)];
    RunFive(Start(), kind, ops, w1, w2, w3, w4, w5);
    assert Reached(kind, ops, w5);
  }

  lemma RunFive(w: World, kind: nat -> Kind, ops: seq<Op>, w1: World, w2: World, w3: World, w4: World, w5: World)
    requires |ops| == 5
    requires Allowed(w, ops[0]) && w1 == Apply(w, kind, ops[0])
    requires Allowed(w1, ops[1]) && w2 == Apply(w1, kind, ops[1])
    requires Allowed(w2, ops[2]) && w3 == Apply(w2, kind, ops[2])
    requires Allowed(w3, ops[3]) && w4 == Apply(w3, kind, ops[3])
    requires Allowed(w4, ops[4]) && w5 == Apply(w4, kind, ops[4])
    ensures CanRun(w, kind, ops) && Run(w, kind, ops) == w5
  {
    hide Apply, Allowed;
    assert ops[4..][1..] == [] && CanRun(w4, kind, ops[4..]) && Run(w4, kind, ops[4..]) == w5;
    assert ops[3..][1..] == ops[4..] && CanRun(w3, kind, ops[3..]) && Run(w3, kind, ops[3..]) == w5;
    assert ops[2..][1..] == ops[3..] && CanRun(w2, kind, ops[2..]) && Run(w2, kind, ops[2..]) == w5;
    assert ops[1..][1..] == ops[2..] && CanRun(w1, kind, ops[1..]) && Run(w1, kind, ops[1..]) == w5;
  }

  // ----- The imperative class -----

  /** The objects that constructors and destructors act on; `lost` and `husks` only record what they did not see. */
  class Memory {
    var live: map<nat, Content>
    var destroyed: set<nat>
    var next: nat
    var fault: bool
    ghost var lost: set<nat>
    ghost var husks: set<nat>

    constructor ()
      ensures AsWorld() == Start()
    {
      live, destroyed, next, fault := map[], {}, 0, false;
      lost, husks := {}, {};
    }

    /** The memory as a world without `any` objects. */
    ghost function AsWorld(): World
      reads this
    {
      World(map[], live, destroyed, lost, husks, next, fault)
    }

    method New(content: Content) returns (obj: nat)
      modifies this
      ensures obj == old(next) && AsWorld() == Construct(old(AsWorld()), content)
    {
      obj := next;
      live := live[next := content];
      next := next + 1;
    }

    method Delete(obj: nat, rtti: nat)
      modifies this
      ensures AsWorld() == Destruct(old(AsWorld()), obj, rtti)
    {
      if obj in live && live[obj].ty == rtti {
        live := live - {obj};
        destroyed := destroyed + {obj};
      } else {
        fault := true;
      }
    }

    method CloneOf(c: Cell) returns (d: Cell)
      modifies this
      ensures (AsWorld(), d) == Clone(old(AsWorld()), c)
    {
      d := c;
      if c.obj in live && live[c.obj].ty == c.rtti {
        var obj := New(live[c.obj]);
        d := c.(obj := obj);
      } else {
        fault := true;
      }
    }
  }

  datatype CastResult = Data(data: int) | BadCast | NullType

  class Any {
    var cell: Cell

    constructor ()
      ensures cell == NO_VALUE
    {
      cell := NO_VALUE;
    }

    constructor Of(memory: Memory, kind: nat -> Kind, content: Content)
      modifies memory
      ensures (memory.AsWorld(), cell) == MakeCell(old(memory.AsWorld()), kind, content)
    {
      if kind(content.ty).Trivial? {
        cell := Cell(content.ty + 1, content.data, 0, 0);
      } else {
        var obj := memory.New(content);
        cell := Cell(content.ty + if kind(content.ty).Small? then 2 else 3, 0, obj, content.ty);
      }
    }

    constructor CopyOf(memory: Memory, other: Any)
      modifies memory
      ensures (memory.AsWorld(), cell) == CopyCell(old(memory.AsWorld()), other.cell)
    {
      var c := other.cell;
      if TagOf(c) >= 2 {
        c := memory.CloneOf(c);
      }
      cell := c;
    }

    constructor MoveOf(memory: Memory, other: Any)
      modifies memory, other
      ensures (memory.AsWorld(), cell) == MoveCell(old(memory.AsWorld()), old(other.cell))
      ensures other.cell == Cleared(old(other.cell))
    {
      var c := other.cell;
      if TagOf(c) == 2 {
        c := memory.CloneOf(c);
        memory.husks := memory.husks + {other.cell.obj};
      }
      cell := c;
      new;
      other.Clear();
    }

    method Clear()
      modifies this
      ensures cell == Cleared(old(cell))
    {
      cell := cell.(word := 0);
    }

    method Swap(other: Any)
      modifies this, other
      ensures cell == old(other.cell) && other.cell == old(cell)
    {
      var c := cell;
      cell := other.cell;
      other.cell := c;
    }

    /** operator=(const any&): a temporary copy is swapped in and takes the old content with it. */
    method CopyAssign(memory: Memory, rhs: Any)
      modifies this, memory
      ensures this == rhs ==> cell == old(cell) && memory.AsWorld() == old(memory.AsWorld())
      ensures this != rhs ==> var (w, c) := CopyCell(old(memory.AsWorld()), old(rhs.cell));
                cell == c && memory.AsWorld() == Release(w, old(cell)) && rhs.cell == old(rhs.cell)
    {
      if this != rhs {
        var tmp := new Any.CopyOf(memory, rhs);
        Swap(tmp);
        tmp.Destroy(memory);
      }
    }

    /** operator=(any&&): the storages are swapped and the source is cleared; nothing is destroyed. */
    method MoveAssign(ghost memory: Memory, rhs: Any)
      modifies this, rhs, memory`lost
      ensures this == rhs ==> cell == old(cell) && memory.AsWorld() == old(memory.AsWorld())
      ensures this != rhs ==> cell == old(rhs.cell) && rhs.cell == Cleared(old(cell))
      ensures this != rhs ==> memory.AsWorld() == Drop(old(memory.AsWorld()), old(cell))
    {
      if this != rhs {
        ghost var dropped := cell;
        Swap(rhs);
        rhs.Clear();
        if Owns(dropped) { memory.lost := memory.lost + {dropped.obj}; }
      }
    }

    /** ~any. */
    method Destroy(memory: Memory)
      modifies memory
      ensures memory.AsWorld() == Release(old(memory.AsWorld()), cell)
    {
      if cell.word != 0 && TagOf(cell) >= 2 {
        memory.Delete(cell.obj, cell.rtti);
      }
    }

    /** any_cast: the type_info behind the word decides; an empty any has none. */
    method Cast(memory: Memory, ty: nat) returns (r: CastResult)
      requires Owns(cell) ==> cell.obj in memory.live && memory.live[cell.obj].ty == TypeOf(cell)
      requires TypeAddress(ty)
      ensures r == match Holds(memory.AsWorld(), cell)
                   case None => NullType
                   case Some(content) => if content.ty == ty then Data(content.data) else BadCast
    {
      if cell.word == 0 {
        return NullType;
      }
      if TypeOf(cell) != ty {
        return BadCast;
      }
      if TagOf(cell) >= 2 {
        return Data(memory.live[cell.obj].data);
      }
      return Data(cell.bytes);
    }
  }
}
