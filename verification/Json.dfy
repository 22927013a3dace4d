/** JSON values as the program holds them: integers and floats apart, objects without key order. */
module Json {

  /** A double: any NaN, which print alike, or a number by its bit pattern. */
  datatype Float = NotANumber | Number(bits: nat)

  datatype Value =
    | Null
    | Bool(flag: bool)
    | Int(number: int)
    | Real(float: Float)
    | Str(text: string)
    | Arr(items: seq<Value>)
    | Obj(fields: map<string, Value>)
}
