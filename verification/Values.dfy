/** The dynamic values the program keeps in contexts, payloads and configuration. */
module Values {

  datatype Option<+T> = None | Some(value: T)

  datatype Value =
    | Nil
    | Bool(b: bool)
    | Num(n: int)
    | Str(s: string)
    | List(items: seq<Value>)
    | Map(fields: map<string, Value>)

  /** A context, an export or any other string-keyed map. */
  type Ctx = map<string, Value>

  datatype Message = Message(labels: map<string, string>, payload: Value)
  {
    /** A label that is not set reads as the empty string. */
    function Status(): string {
      if "status" in labels then labels["status"] else ""
    }
  }

  const SUCCESS := "success"
  const FAILURE := "failure"
  const ERROR := "error"

  function SuccessMessage(): Message {
    Message(map["status" := SUCCESS], Nil)
  }

  function ErrorMessage(reason: string): Message {
    Message(map["status" := ERROR, "reason" := reason], Map(map[]))
  }
}
