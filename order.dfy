/**
 * Rust's `Ord`: three-way comparison of strings and optional strings, and the
 * lexicographic combination that `#[derive(Ord)]` builds from field comparisons.
 * Strings compare by code point, which is the byte order of their UTF-8 encodings.
 */
module Order {
  import opened Wrappers

  /** `std::cmp::Ordering` */
  datatype Ordering = Less | Equal | Greater {

    /** `Ordering::reverse` */
    function Reverse(): Ordering {
      match this
      case Less => Greater
      case Equal => Equal
      case Greater => Less
    }
  }

  /** `first.then(next)`: the comparison of the next field decides only on a tie. */
  function Then(first: Ordering, next: Ordering): Ordering {
    if first == Equal then next else first
  }

  /** `Ord::cmp` for `String`. */
  function CmpString(a: string, b: string): Ordering {
    if a == [] then (if b == [] then Equal else Less)
    else if b == [] then Greater
    else if a[0] < b[0] then Less
    else if a[0] > b[0] then Greater
    else CmpString(a[1..], b[1..])
  }

  /** String comparison says `Equal` exactly on equal strings, and swapping the operands reverses it. */
  lemma {:induction false} CmpStringEqualReverse(a: string, b: string)
    ensures CmpString(a, b) == Equal <==> a == b
    ensures CmpString(b, a) == CmpString(a, b).Reverse()
  {
    if a != [] && b != [] && a[0] == b[0] {
      CmpStringEqualReverse(a[1..], b[1..]);
      assert a == [a[0]] + a[1..] && b == [b[0]] + b[1..];
    }
  }

  /** String comparison is transitive. */
  lemma {:induction false} CmpStringTransitive(a: string, b: string, c: string)
    requires CmpString(a, b) == Less && CmpString(b, c) == Less
    ensures CmpString(a, c) == Less
  {
    if a != [] && a[0] == b[0] && b[0] == c[0] {
      CmpStringTransitive(a[1..], b[1..], c[1..]);
    }
  }

  /** `Ord::cmp` for `Option<String>`: `None` sorts before every `Some`. */
  function CmpOptString(a: Option<string>, b: Option<string>): Ordering {
    match (a, b)
    case (None, None) => Equal
    case (None, Some(_)) => Less
    case (Some(_), None) => Greater
    case (Some(x), Some(y)) => CmpString(x, y)
  }

  lemma CmpOptStringEqualReverse(a: Option<string>, b: Option<string>)
    ensures CmpOptString(a, b) == Equal <==> a == b
    ensures CmpOptString(b, a) == CmpOptString(a, b).Reverse()
  {
    if a.Some? && b.Some? {
      CmpStringEqualReverse(a.value, b.value);
    }
  }

  lemma CmpOptStringTransitive(a: Option<string>, b: Option<string>, c: Option<string>)
    requires CmpOptString(a, b) == Less && CmpOptString(b, c) == Less
    ensures CmpOptString(a, c) == Less
  {
    if a.Some? {
      CmpStringTransitive(a.value, b.value, c.value);
    }
  }
}
