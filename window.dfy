/**
 * The memory-mapping window size computed at start-up: the window target
 * rounded up to a whole number of pages.
 */
module Window {
  import opened Octets

  /** The target number of bytes for one window, 4 MiB. */
  const WINDOW_TARGET: int := 4194304

  /** The number of pages in one window for a page size `page`: the target
      divided by the page size, one more when it does not divide evenly, and
      at least one. It is the least page count that covers the target. */
  function WindowPages(page: int): (n: int)
    requires page >= 1
    ensures n >= 1
    ensures n * page >= WINDOW_TARGET && (n - 1) * page < WINDOW_TARGET
  {
    var wsz := WINDOW_TARGET / page;
    var wsz' := if WINDOW_TARGET % page != 0 then wsz + 1 else wsz;
    var pages := if wsz' < 1 then 1 else wsz';
    assert WINDOW_TARGET == wsz * page + WINDOW_TARGET % page;
    assert (wsz + 1) * page == wsz * page + page;
    assert (wsz - 1) * page == wsz * page - page;
    pages
  }

  /** m_winsize: the window as a whole number of pages. */
  function WindowSize(page: int): (w: int)
    requires page >= 1
    ensures w == WindowPages(page) * page
    ensures w >= page && w >= WINDOW_TARGET && w - page < WINDOW_TARGET
  {
    var n := WindowPages(page);
    assert (n - 1) * page == n * page - page;
    n * page
  }

  /** No whole number of pages that reaches the target is shorter than
      m_winsize. */
  lemma {:induction false} WindowSizeLeast(page: int, k: int)
    requires page >= 1 && k * page >= WINDOW_TARGET
    ensures WindowSize(page) <= k * page
  {
    var n := WindowPages(page);
    if k < n {
      MulMono(k, n - 1, page);
      assert false;
    }
    MulMono(n, k, page);
  }
}
