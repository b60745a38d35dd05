module Wrappers {
  datatype Option<+T> = None | Some(value: T) {
    function GetOr(default: T): T {
      if Some? then value else default
    }
  }

  // Python's s[-limit:]: the last `limit` items; -0 is 0, so limit 0 keeps everything; a negative
  // limit drops that many from the front.
  function TailSlice<T>(s: seq<T>, limit: int): (r: seq<T>)
    ensures |r| <= |s| && (limit >= 0 ==> r == s[|s| - |r|..])
    ensures limit >= 1 ==> |r| == if limit < |s| then limit else |s|
  {
    if limit >= |s| || limit == 0 then s
    else if limit > 0 then s[|s| - limit..]
    else if -limit <= |s| then s[-limit..]
    else []
  }

  // What a deque(maxlen=cap) keeps of everything ever appended to it.
  function KeepLast<T>(s: seq<T>, cap: nat): seq<T> {
    if |s| <= cap then s else s[|s| - cap..]
  }
}
