/**
  The JSON documents the two processes hand to each other through files
  (`vehicle_counts.json` and `esp_command.json`), and the state of such a file.
  Non-integral numbers are not represented: a posted body may carry them, but
  no reader of either store depends on them.
 */
module Documents {

  datatype Json =
    | JNull
    | JBool(b: bool)
    | JNum(n: int)
    | JStr(s: string)
    | JArr(items: seq<Json>)
    | JObj(fields: map<string, Json>)

  /** What a reader finds when it opens a store file: no file, a file that
      exists but cannot be opened or read as text (a permission or text
      decoding error), a text `json.load` cannot decode, or a decoded
      document. */
  datatype File = Missing | Unreadable | Corrupt | Stored(doc: Json)
}
