/** The Java objects that travel through the bridge's untyped attribute
    bags (`Map<String, Object>`), as a tagged union. A `null` reference is
    represented by the absence of a value (`Option.None`), never by a `Value`. */
module Values {

  datatype Value =
    | Text(text: string)                          // java.lang.String
    | LongValue(long: int)                        // java.lang.Long
    | IntValue(integer: int)                      // java.lang.Integer
    | BoolValue(flag: bool)                       // java.lang.Boolean
    | MapValue(entries: map<string, Value>)       // a java.util.Map<String, Object>
    | MultipartConfig(location: string, maxFileSize: int, maxRequestSize: int, fileSizeThreshold: int)
                                                  // javax.servlet.MultipartConfigElement
    | Other(identity: nat)                        // any other object, by identity
}
