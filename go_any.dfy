/** A Go `any` value, as far as the type switches of the core look at it. */
module GoAny {

  datatype Value = Str(s: string) | Int(i: int) | Bool(b: bool) | Nil | OtherValue
}
