/** The JSON values the scripts read field contents from. */
module Json {

  /** A field value: a JSON string or some other JSON value (number, list, object, null). */
  datatype FieldValue = Str(text: string) | NonStr
}
