/** The types of object.h. */
module DiTypes {

  datatype DiType =
    | NIL | ANY | BOOL | NINT | NUINT | INT | UINT | FLOAT | ADDRESS | OBJECT | WEAK_OBJECT
    | STRING | STRING_LITERAL | ARRAY | TUPLE | VARIANT
}
