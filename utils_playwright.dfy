/** The browser helpers of src/scrapers/utils_playwright.py. The browser is abstract:
    `succeeds(k)` says whether the `k`-th `page.goto` attempt returns without raising, and
    a DOM query is a `NodeQuery` outcome. Sleeps are recorded instead of taken. */
module UtilsPlaywright {
  import opened Json
  import opened Strings

  /** `safe_goto(page, url, retries)`: `Some(true)` on the first attempt that succeeds,
      `Some(false)` when attempt `retries` fails, and None (the function falls off its end)
      when `retries <= 0`. After failed attempt `k < retries` it sleeps `2 * k` seconds. */
  method SafeGoto(succeeds: nat -> bool, retries: int)
    returns (result: Option<bool>, attempts: nat, sleeps: seq<nat>)
    ensures retries <= 0 ==> result == None && attempts == 0
    ensures retries > 0 ==> result.Some? && 1 <= attempts <= retries
    ensures forall k :: 1 <= k < attempts ==> !succeeds(k)
    ensures result == Some(true) <==> attempts >= 1 && succeeds(attempts)
    ensures result == Some(false) ==> attempts == retries
    ensures sleeps == seq(if attempts == 0 then 0 else attempts - 1, k => 2 * (k + 1))
  {
    result, attempts, sleeps := None, 0, [];
    var attempt := 1;
    while attempt <= retries
      invariant 1 <= attempt && (attempt == 1 || attempt <= retries)
      invariant attempts == attempt - 1 && result == None
      invariant forall k :: 1 <= k < attempt ==> !succeeds(k)
      invariant sleeps == seq(attempt - 1, k => 2 * (k + 1))
      decreases retries - attempt
    {
      attempts := attempt;
      if succeeds(attempt) {
        return Some(true), attempts, sleeps;
      }
      if attempt < retries {
        sleeps := sleeps + [2 * attempt];
        attempt := attempt + 1;
      } else {
        return Some(false), attempts, sleeps;
      }
    }
  }

  /** What `el.query_selector(sel)` and `inner_text()` produce. */
  datatype NodeQuery = NoNode | Node(innerText: string) | QueryRaises

  /** `safe_text(el, sel)`: the stripped inner text, or "" when there is no node or the
      query raises. */
  function SafeText(q: NodeQuery): string {
    match q
    case Node(t) => PyStrip(t)
    case _ => ""
  }

  /** The text `safe_text` returns is the inner text with a run of leading and a run of
      trailing whitespace removed, neither starts nor ends with whitespace, and is empty
      only when there is no node or the inner text is all whitespace. */
  lemma SafeTextStripped(q: NodeQuery)
    ensures q.Node? ==> exists i, j ::
      && 0 <= i <= j <= |q.innerText| && SafeText(q) == q.innerText[i..j]
      && AllSpace(q.innerText[..i], PySpace) && AllSpace(q.innerText[j..], PySpace)
    ensures SafeText(q) != [] ==> q.Node? && !PySpace(SafeText(q)[0]) && !PySpace(SafeText(q)[|SafeText(q)| - 1])
    ensures q.Node? && !AllSpace(q.innerText, PySpace) ==> SafeText(q) != []
  {
    if q.Node? {
      TrimSlice(q.innerText, PySpace);
    }
  }
}
