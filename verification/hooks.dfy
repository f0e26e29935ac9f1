/** `suspending_pre_get_posts`: run a callback with the `pre_get_posts` handler
    unhooked, then hook it again. The hook registry is reduced to one flag, "is
    the handler registered", which the callback receives. */
module Hooks {

  /** The callback's return value and the registration flag afterwards. */
  datatype Suspended<T> = Suspended(value: T, registered: bool)

  /** The callback runs with the handler unregistered, whatever the flag was
      before, and the handler is registered again once the callback returns
      normally. Exceptions out of the callback are not modelled. */
  function SuspendingPreGetPosts<T>(callback: bool -> T): (r: Suspended<T>)
    ensures r.value == callback(false)
    ensures r.registered
  {
    var hooked := false;
    var result := callback(hooked);
    Suspended(result, true)
  }
}
