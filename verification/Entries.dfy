/** Maps with one entry per session. */
module Entries {
  import opened Wrappers

  function Find<T>(m: map<string, T>, s: string): Option<T> { if s in m then Some(m[s]) else None }

  function Store<T>(m: map<string, T>, s: string, x: Option<T>): map<string, T> {
    if x.Some? then m[s := x.value] else Dropped(m, s)
  }

  function Dropped<T>(m: map<string, T>, s: string): map<string, T> { map t | t in m && t != s :: m[t] }
}
