/** What several modules share: optional values and growing logs. */
module Common {
  datatype Option<+T> = None | Some(value: T)

  /** A history, latest event last. */
  datatype Log<E> = Empty | Snoc(prev: Log<E>, last: E)

  ghost predicate PrefixOf<E>(p: Log<E>, log: Log<E>) {
    p == log || (log.Snoc? && PrefixOf(p, log.prev))
  }
}
