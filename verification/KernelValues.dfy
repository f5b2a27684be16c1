/** Property values as the kernel stores them. */
module KernelValues {
  import opened Wrappers

  type U8 = x: nat | x < 256

  /** Text is kept as its UTF-8 bytes; maps list their entries in key order. */
  datatype Value =
    | Null
    | Boolean(flag: bool)
    | Integer(i: I64)
    | FloatBits(bits: U64)
    | Bytes(bytes: seq<U8>)
    | Text(text: seq<U8>)
    | List(items: seq<Value>)
    | Map(entries: seq<Entry>)

  datatype Entry = Entry(name: seq<U8>, value: Value)
}
