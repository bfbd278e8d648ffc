/** Variables as trees. A constructor's fields and an array's element template are its kids; the
    projection flag, the attributes and a scalar's value are part of the variable. */
module Variables {
  import opened Text
  import opened Types
  import opened Attributes
  import Varint

  /** One dimension of an array, with the constraint put on it. */
  datatype Dimension = Dimension(size: int, name: string, start: int, stop: int, stride: int, cSize: int)

  /** The value buffer of a scalar: the bit pattern of a number, or the bytes of a string. */
  datatype Value = NoValue | Number(bits: nat) | Characters(bytes: seq<Varint.byte>)

  datatype Var = Var(
    ty: Type,
    name: string,
    send: bool,
    attrs: Table,
    kids: seq<Var>,
    dims: seq<Dimension>,
    value: Value)

  function NewVar(ty: Type, name: string): Var {
    Var(ty, name, false, [], [], [], NoValue)
  }

  /** A dimension as append_dim makes it: not constrained. */
  function NewDimension(size: int, name: string): Dimension {
    Dimension(size, name, 0, size - 1, 1, size)
  }

  /** The declaration of a variable: no constraint, no projection, no value. It is what a client
      rebuilds from a description of the variable. */
  function Declaration(v: Var): Var {
    Var(v.ty, v.name, false, v.attrs, Declarations(v.kids), BareDimensions(v.dims), NoValue)
  }

  function Declarations(vs: seq<Var>): (r: seq<Var>)
    ensures |r| == |vs|
  {
    if vs == [] then [] else [Declaration(vs[0])] + Declarations(vs[1..])
  }

  function BareDimensions(ds: seq<Dimension>): (r: seq<Dimension>)
    ensures |r| == |ds|
  {
    seq(|ds|, i requires 0 <= i < |ds| => NewDimension(ds[i].size, ds[i].name))
  }

  /** The variable inside the current projection: only the kids to be sent, and arrays cut down to
      their constrained dimensions. */
  function Projection(v: Var): Var {
    Var(v.ty, v.name, v.send, v.attrs, Projections(v.kids), ConstrainedDimensions(v.dims), v.value)
  }

  function Projections(vs: seq<Var>): seq<Var> {
    if vs == [] then []
    else (if vs[0].send then [Projection(vs[0])] else []) + Projections(vs[1..])
  }

  function ConstrainedDimensions(ds: seq<Dimension>): (r: seq<Dimension>)
    ensures |r| == |ds|
  {
    seq(|ds|, i requires 0 <= i < |ds| => NewDimension(ds[i].cSize, ds[i].name))
  }
}
