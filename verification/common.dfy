/** Values shared by every route: optional inputs and the HTTP outcome of a handler. */
module Common {

  datatype Option<+T> = None | Some(value: T)

  /** A handler's answer: a success status with its body, or an error status with the
      message that the route puts in its `error` field. */
  datatype Response<+T> = Ok(status: int, body: T) | Err(status: int, message: string)

  const Unauthorized: string := "Unauthorized"
  const InternalError: string := "Internal server error"
  const UsernameTaken: string := "Username already exists"

  /** Mongo's error code for a violated unique index. */
  const DuplicateKey: int := 11000

  /** The shortest password the routes and forms accept. */
  const MinPasswordLength: int := 6

  /** What a route's catch block answers when the save throws `code`: the routes that
      look at `error.code` map a duplicate key to 409 with their own message, every other
      failure to 500. */
  function SaveFailure<T>(code: int, duplicateMessage: string): (r: Response<T>)
    ensures r.Err?
    ensures r.status == 409 <==> code == DuplicateKey
    ensures r.status == 409 ==> r.message == duplicateMessage
    ensures r.status != 409 ==> r == Err(500, InternalError)
  {
    if code == DuplicateKey then Err(409, duplicateMessage) else Err(500, InternalError)
  }

  /** `r` keeps some of the elements of `s`, in their order. */
  predicate IsSubsequence<T(==)>(r: seq<T>, s: seq<T>)
    decreases |s|
  {
    r == [] || (s != [] && ((r[0] == s[0] && IsSubsequence(r[1..], s[1..])) || IsSubsequence(r, s[1..])))
  }

  /** `s.filter(keep)`. */
  function Filter<T(==,!new)>(s: seq<T>, keep: T -> bool): (r: seq<T>)
    ensures forall x :: x in r <==> x in s && keep(x)
    ensures IsSubsequence(r, s)
    decreases |s|
  {
    if s == [] then []
    else if keep(s[0]) then [s[0]] + Filter(s[1..], keep)
    else Filter(s[1..], keep)
  }

  /** `findOne`: the position of the first element that satisfies `pick`, if any. */
  function First<T>(s: seq<T>, pick: T -> bool): (r: Option<nat>)
    ensures r.None? <==> forall i :: 0 <= i < |s| ==> !pick(s[i])
    ensures r.Some? ==> r.value < |s| && pick(s[r.value])
    ensures r.Some? ==> forall i :: 0 <= i < r.value ==> !pick(s[i])
    decreases |s|
  {
    if s == [] then None
    else if pick(s[0]) then Some(0)
    else match First(s[1..], pick)
      case None => None
      case Some(k) => Some(k + 1)
  }
}
