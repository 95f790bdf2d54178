/**
 VDM values: atoms (characters, quotes, tokens), numbers and the finite structures over them.
 */
module VdmValues {

  datatype Value =
    | Atom(id: int)
    | Num(n: int)
    | SetV(elems: set<Value>)
    | SeqV(items: seq<Value>)
    | MapV(entries: map<Value, Value>)
    | TupleV(comps: seq<Value>)
    | RecV(tag: string, comps: seq<Value>)
}
