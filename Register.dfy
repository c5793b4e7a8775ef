/** A storage cell: the holder of one Java `int` used for every register and flag. */
module RegisterCell {
  import opened JavaInt
  import opened Faults

  class Register {
    var value: int32

    constructor (initialValue: int32)
      ensures value == initialValue
    {
      value := initialValue;
    }

    method Write(v: int32)
      modifies this
      ensures value == v
    {
      value := v;
    }

    /** A getter: returns the held value and changes nothing. */
    method Read() returns (v: int32)
      ensures v == value
    {
      v := value;
    }

    /** `value += v`, wrapping modulo 2^32. */
    method Add(v: int32)
      modifies this
      ensures value == JavaInt.Add(old(value), v)
    {
      value := JavaInt.Add(value, v);
    }

    /** `value -= v`, wrapping modulo 2^32. */
    method Sub(v: int32)
      modifies this
      ensures value == JavaInt.Sub(old(value), v)
    {
      value := JavaInt.Sub(value, v);
    }

    /** `value *= v`, wrapping modulo 2^32. */
    method Mul(v: int32)
      modifies this
      ensures value == JavaInt.Mul(old(value), v)
    {
      value := JavaInt.Mul(value, v);
    }

    /** `value /= v`: truncating; a zero divisor throws and leaves the value as it was. */
    method Div(v: int32) returns (c: Completion)
      modifies this
      ensures c == if v == 0 then Abrupt(DivideByZero) else Normal
      ensures value == if v == 0 then old(value) else JavaInt.Div(old(value), v)
    {
      if v == 0 {
        return Abrupt(DivideByZero);
      }
      value := JavaInt.Div(value, v);
      return Normal;
    }
  }

  /** A fresh cell reads back the value it was built with. */
  method NewThenRead(v: int32) returns (r: int32)
    ensures r == v
  {
    var cell := new Register(v);
    r := cell.Read();
  }

  /** A write followed by a read returns the value written; the read itself changes nothing. */
  method WriteThenRead(cell: Register, v: int32) returns (r: int32)
    modifies cell
    ensures r == v && cell.value == v
  {
    cell.Write(v);
    r := cell.Read();
  }
}
