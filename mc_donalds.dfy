/** The order-taking models of the restaurant app: the clamped `amount` of an
    order line, finishing an order, and a staff member's last name. */
module McDonalds {
  import opened Common

  // ---------------------------------------------------------------------------
  // ProductOrder.amount

  /** What the `amount` setter stores for `value`: `int(value)` for a
      non-negative value (truncation, which is the floor there), 0 otherwise. */
  function AmountFromValue(value: real): (r: int)
    ensures r >= 0
    ensures value < 0.0 ==> r == 0
    ensures value >= 0.0 ==> r as real <= value < r as real + 1.0
  {
    if value >= 0.0 then value.Floor else 0
  }

  /** Setting a whole number gives that number back; setting a negative one gives 0. */
  lemma AmountOfWholeNumber(n: int)
    ensures AmountFromValue(n as real) == if n >= 0 then n else 0
  {
  }

  /** An order line. Only the stored amount is kept; the product and order it
      links are not needed by its rules. */
  class ProductOrder {
    var storedAmount: int

    ghost predicate Valid()
      reads this
    {
      storedAmount >= 0
    }

    /** A new line has the field default, 1. */
    constructor ()
      ensures Valid() && storedAmount == 1
    {
      storedAmount := 1;
    }

    /** The `amount` getter. */
    function Amount(): (r: int)
      reads this
      ensures Valid() ==> r >= 0
    {
      storedAmount
    }

    /** The `amount` setter. */
    method SetAmount(value: real)
      modifies this
      ensures Valid()
      ensures storedAmount == AmountFromValue(value)
    {
      storedAmount := AmountFromValue(value);
    }
  }

  /** Setting a non-negative whole amount and reading it back returns it. */
  method SetThenGetAmount(line: ProductOrder, n: nat) returns (read: int)
    modifies line
    ensures read == n && line.Valid()
  {
    line.SetAmount(n as real);
    AmountOfWholeNumber(n);
    read := line.Amount();
  }

  // ---------------------------------------------------------------------------
  // Order.finish_order

  /** An order's completion state; cost, pickup, staff and products play no
      part in its rules. */
  class Order {
    const timeIn: Time
    var timeOut: Option<Time>
    var complete: bool

    constructor (now: Time)
      ensures timeIn == now && timeOut == None && !complete
    {
      timeIn := now;
      timeOut := None;
      complete := false;
    }

    /** `finish_order`, at time `now`. */
    method FinishOrder(now: Time)
      modifies this
      ensures complete && timeOut == Some(now)
    {
      timeOut := Some(now);
      complete := true;
    }
  }

  /** Finishing twice keeps the order complete; the second call moves the
      finishing time to its own `now`. */
  method FinishOrderTwice(order: Order, first: Time, second: Time)
    modifies order
    ensures order.complete && order.timeOut == Some(second)
  {
    order.FinishOrder(first);
    order.FinishOrder(second);
  }

  // ---------------------------------------------------------------------------
  // Staff.get_last_name

  datatype Staff = Staff(fullName: string, position: string, laborContract: int)

  /** Python's `str.isspace` for one character. */
  predicate IsSpace(c: char)
    ensures IsSpace(c) && ' ' <= c <= '~' ==> c == ' '
    ensures c == ' ' || c == '\n' || c == '\U{a0}' || c == '\U{3000}' ==> IsSpace(c)
  {
    || c == ' ' || ('\t' <= c <= '\r') || ('\U{1c}' <= c <= '\U{1f}')
    || c == '\U{85}' || c == '\U{a0}' || c == '\U{1680}' || ('\U{2000}' <= c <= '\U{200a}')
    || c == '\U{2028}' || c == '\U{2029}' || c == '\U{202f}' || c == '\U{205f}' || c == '\U{3000}'
  }

  predicate NoSpace(t: string)
  {
    forall k :: 0 <= k < |t| ==> !IsSpace(t[k])
  }

  predicate Blank(s: string)
  {
    forall k :: 0 <= k < |s| ==> IsSpace(s[k])
  }

  /** The length of the longest prefix of `s` without whitespace. */
  function WordLength(s: string): (n: nat)
    ensures n <= |s| && NoSpace(s[..n]) && (n == |s| || IsSpace(s[n]))
  {
    if s == [] || IsSpace(s[0]) then 0
    else
      var n := 1 + WordLength(s[1..]);
      assert s[..n] == [s[0]] + s[1..][..n - 1];
      n
  }

  /** `str.split()` with no separator: the maximal runs of non-whitespace, in order. */
  function Split(s: string): (r: seq<string>)
    ensures forall t :: t in r ==> |t| > 0 && NoSpace(t)
    decreases |s|
  {
    if s == [] then []
    else if IsSpace(s[0]) then Split(s[1..])
    else
      var n := WordLength(s);
      [s[..n]] + Split(s[n..])
  }

  /** `str.split()` is empty exactly when the string is all whitespace. */
  lemma {:induction false} SplitEmptyIffBlank(s: string)
    ensures Split(s) == [] <==> Blank(s)
    decreases |s|
  {
    if s != [] && IsSpace(s[0]) {
      SplitEmptyIffBlank(s[1..]);
      assert Blank(s) <==> Blank(s[1..]) by {
        assert forall k :: 0 < k < |s| ==> s[k] == s[1..][k - 1];
      }
    }
  }

  /** Words joined by single spaces. */
  function JoinWords(ts: seq<string>): string
  {
    if ts == [] then []
    else if |ts| == 1 then ts[0]
    else ts[0] + " " + JoinWords(ts[1..])
  }

  /** Splitting words that were joined by single spaces gives the words back. */
  lemma {:induction false} SplitJoinWords(ts: seq<string>)
    requires forall t :: t in ts ==> |t| > 0 && NoSpace(t)
    ensures Split(JoinWords(ts)) == ts
    decreases |ts|
  {
    if ts != [] {
      var t := ts[0];
      assert t in ts;
      var rest := if |ts| == 1 then [] else " " + JoinWords(ts[1..]);
      var s := t + rest;
      assert JoinWords(ts) == s;
      WordLengthOfWord(t, rest);
      assert s[..|t|] == t && s[|t|..] == rest;
      if |ts| > 1 {
        assert forall u :: u in ts[1..] ==> u in ts;
        SplitJoinWords(ts[1..]);
        assert rest[1..] == JoinWords(ts[1..]);
      }
    }
  }

  lemma {:induction false} WordLengthOfWord(t: string, rest: string)
    requires |t| > 0 && NoSpace(t) && (rest == [] || IsSpace(rest[0]))
    ensures WordLength(t + rest) == |t|
    decreases |t|
  {
    var s := t + rest;
    assert s[0] == t[0];
    assert s[1..] == t[1..] + rest;
    if |t| > 1 {
      WordLengthOfWord(t[1..], rest);
    }
  }

  datatype NameError = IndexError

  /** `t` is a whitespace-free token of `s` starting at `i`, preceded only by
      whitespace and followed by whitespace or the end of `s`. */
  predicate FirstTokenAt(s: string, i: nat, t: string)
  {
    && i + |t| <= |s| && Blank(s[..i]) && s[i..i + |t|] == t
    && |t| > 0 && NoSpace(t) && (i + |t| == |s| || IsSpace(s[i + |t|]))
  }

  lemma FirstTokenAtShift(s: string, i: nat, t: string)
    requires |s| > 0 && IsSpace(s[0]) && FirstTokenAt(s[1..], i, t)
    ensures FirstTokenAt(s, i + 1, t)
  {
    assert s[..i + 1] == [s[0]] + s[1..][..i];
    assert s[i + 1..i + 1 + |t|] == s[1..][i..i + |t|];
  }

  /** The last name is the first run of non-whitespace: everything before it
      is whitespace and it ends at whitespace or at the end of the name. */
  lemma {:induction false} FirstTokenShape(s: string)
    requires Split(s) != []
    ensures exists i: nat :: FirstTokenAt(s, i, Split(s)[0])
    decreases |s|
  {
    var t := Split(s)[0];
    if IsSpace(s[0]) {
      FirstTokenShape(s[1..]);
      var i: nat :| FirstTokenAt(s[1..], i, t);
      FirstTokenAtShift(s, i, t);
    } else {
      assert t in Split(s);
      assert FirstTokenAt(s, 0, t);
    }
  }

  /** `get_last_name`: the first whitespace-separated token of the full name
      (`split()[0]`), which fails with `IndexError` for a blank name. */
  function GetLastName(staff: Staff): (r: Result<string, NameError>)
    ensures r.Err? <==> Blank(staff.fullName)
    ensures r.Err? ==> r.error == IndexError
    ensures r.Ok? ==> exists i: nat :: FirstTokenAt(staff.fullName, i, r.value)
  {
    var tokens := Split(staff.fullName);
    SplitEmptyIffBlank(staff.fullName);
    if |tokens| == 0 then Err(IndexError)
    else
      FirstTokenShape(staff.fullName);
      Ok(tokens[0])
  }
}
