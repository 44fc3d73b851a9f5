/** The calls the tracker makes into the cursor library, as values.
    A step function returns the list of these it would perform, in order. */
module Actuation {

  datatype Button = Left | Right

  datatype Action =
    | Click(button: Button)       // click(button=...); `click()` means the left button
    | MouseDown(button: Button)   // mouseDown(button=...)
    | MouseUp(button: Button)     // mouseUp(button=...)
    | MoveTo(x: int, y: int)      // moveTo(x, y)

  /** Number of clicks of `b` in `acts`. */
  function CountClicks(acts: seq<Action>, b: Button): (n: nat)
    ensures n <= |acts|
    ensures n == 0 <==> forall i :: 0 <= i < |acts| ==> acts[i] != Click(b)
  {
    if |acts| == 0 then 0
    else (if acts[0] == Click(b) then 1 else 0) + CountClicks(acts[1..], b)
  }

  lemma {:induction false} CountClicksAppend(a: seq<Action>, c: seq<Action>, b: Button)
    ensures CountClicks(a + c, b) == CountClicks(a, b) + CountClicks(c, b)
  {
    if |a| == 0 {
      assert a + c == c;
    } else {
      assert (a + c)[1..] == a[1..] + c;
      CountClicksAppend(a[1..], c, b);
    }
  }
}
