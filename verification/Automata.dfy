/** The label tables of the generated automata, and what it means that a table is the layout of a schema. */
module Automata {
  import opened Wire

  /** One `case` of the generated switch. A label is the index of its state in the table.
        Root:   stateComplexBegin of the document element
        Begin:  stateComplexBegin; `exit` is the label taken when an optional element is absent
        End:    stateComplexEnd; an optional element jumps back to its Begin state
        Leaf:   stateBegin of a simple element
      `slot` is the index of the field in the structure on top of the stack, and `shape` the C type
      of an occurrence of it. */
  datatype State =
    | Root(tag: string)
    | Begin(tag: string, opt: bool, slot: nat, exit: nat, shape: Schema)
    | End(tag: string, opt: bool, back: nat)
    | Leaf(tag: string, opt: bool, slot: nat, leaf: Wire.Leaf)

  /** What memset leaves in the storage of an element. */
  function Zero(s: Schema): Dom
    decreases s, 0
  {
    match s
    case Simple(_, leaf) => Val(ZeroLeaf(leaf))
    case Complex(_, fields) => Struct(ZeroFields(fields))
  }

  function ZeroFields(fs: Fields): seq<seq<Dom>>
    decreases fs, 0
  {
    match fs
    case Done => []
    case Field(opt, sub, rest) => [ZeroSlot(opt, sub)] + ZeroFields(rest)
  }

  function ZeroSlot(opt: bool, sub: Schema): seq<Dom>
    decreases sub, 1
  {
    if opt then [] else [Zero(sub)]
  }

  /** Number of states of an element. */
  function Size(s: Schema): nat {
    match s
    case Simple(_, _) => 1
    case Complex(_, fields) => 2 + SizeFields(fields)
  }

  function SizeFields(fs: Fields): nat {
    match fs
    case Done => 0
    case Field(_, sub, rest) => Size(sub) + SizeFields(rest)
  }

  /** States b, b+1, ... of `table` are the layout of element `s`, field number k of its structure. */
  predicate LaidElement(table: seq<State>, opt: bool, s: Schema, k: nat, b: nat)
    decreases s
  {
    && b + Size(s) <= |table|
    && match s
       case Simple(tag, leaf) => table[b] == Leaf(tag, opt, k, leaf)
       case Complex(tag, fields) =>
         && table[b] == Begin(tag, opt, k, b + Size(s), s)
         && LaidFields(table, fields, 0, b + 1)
         && table[b + Size(s) - 1] == End(tag, opt, b)
  }

  predicate LaidFields(table: seq<State>, fs: Fields, k: nat, b: nat)
    decreases fs
  {
    match fs
    case Done => true
    case Field(opt, sub, rest) =>
      LaidElement(table, opt, sub, k, b) && LaidFields(table, rest, k + 1, b + Size(sub))
  }

  /** The whole table is the layout of the document element `s`. */
  predicate Laid(table: seq<State>, s: Schema) {
    && s.Complex?
    && |table| == Size(s)
    && table[0] == Root(s.tag)
    && LaidFields(table, s.fields, 0, 1)
    && table[|table| - 1] == End(s.tag, false, 0)
  }
}
