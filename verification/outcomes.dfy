/** Small value types shared by the stores and the components. */
module Outcomes {

  datatype Option<+T> = None | Some(value: T)

  /** What a call into the remote database returned: its data, or an error
      (the source throws the error and catches it in the same method). */
  datatype Outcome<+T> = Ok(data: T) | Err

  /** A transient notification shown to the user (react-hot-toast). */
  datatype Toast = Success(message: string) | Error(message: string)

  /** The signed-in user as the components see it; only the id is used. */
  datatype User = User(id: string)

  /** What a successful fetch stores, `data || []`: the data, or the empty
      list when the backend sent none. */
  function ListOrEmpty<T>(data: Option<seq<T>>): (r: seq<T>)
    ensures data.Some? ==> r == data.value
    ensures data.None? ==> r == []
  {
    if data.Some? then data.value else []
  }
}
