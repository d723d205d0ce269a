/**
  The event handlers of the UI elements (spiritual/element.py): a text prompt
  that takes keyboard input while focused, a button that fires its action on
  a release inside it after a press, and the font-size clamp every element
  applies when the window is resized. Pygame events are reduced to a mouse
  position or a key code with the text it produces.
*/
module Elements {

  /** A pygame rect: top-left corner and size, in whole pixels. */
  datatype Rect = Rect(x: int, y: int, w: int, h: int)

  datatype Point = Point(x: int, y: int)

  /** `Rect.collidepoint`: the left and top edges are inside, the right and bottom edges are not. */
  predicate Collides(r: Rect, p: Point) {
    r.x <= p.x < r.x + r.w && r.y <= p.y < r.y + r.h
  }

  /** The keys the handlers tell apart; every other key is `KOther`. */
  datatype KeyCode = KBackspace | KReturn | KEscape | KW | KA | KS | KD | KOther(code: int)

  /** `MOUSEBUTTONDOWN`, `MOUSEBUTTONUP`, `KEYDOWN` (with `event.unicode`), or any other event. */
  datatype Event =
    | MouseDown(pos: Point)
    | MouseUp(pos: Point)
    | KeyDown(key: KeyCode, text: string)
    | OtherEvent

  /** The keys a focused prompt treats specially; every other key types its text. */
  predicate EditKey(k: KeyCode) {
    k.KBackspace? || k.KReturn? || k.KEscape?
  }

  /** The mutable part of a `TextPrompt`, with the rect and the length limit it is checked against. */
  datatype TextPrompt = TextPrompt(rect: Rect, maxLength: int, value: string, focus: bool)

  /** `TextPrompt.__init__`: empty and unfocused; `max_length` defaults to 32. */
  function NewPrompt(rect: Rect, maxLength: int): (tp: TextPrompt)
    ensures tp.value == "" && !tp.focus && tp.rect == rect && tp.maxLength == maxLength
  {
    TextPrompt(rect, maxLength, "", false)
  }

  /** `TextPrompt.on_event`. */
  function PromptEvent(tp: TextPrompt, ev: Event): (r: TextPrompt)
    ensures r.rect == tp.rect && r.maxLength == tp.maxLength
    ensures ev.MouseDown? ==> r.focus == Collides(tp.rect, ev.pos) && r.value == tp.value
    ensures !ev.MouseDown? && !(ev.KeyDown? && tp.focus) ==> r == tp
    ensures tp.focus && ev.KeyDown? && ev.key == KBackspace ==>
              r.focus && (if tp.value == "" then r.value == "" else r.value + [tp.value[|tp.value| - 1]] == tp.value)
    ensures tp.focus && ev.KeyDown? && ev.key == KReturn ==> !r.focus && r.value == tp.value
    ensures tp.focus && ev.KeyDown? && ev.key == KEscape ==> !r.focus && r.value == ""
    ensures tp.focus && ev.KeyDown? && !EditKey(ev.key) ==>
              r.focus && r.value == if |tp.value| < tp.maxLength then tp.value + ev.text else tp.value
    ensures |tp.value| <= tp.maxLength && (ev.KeyDown? ==> |ev.text| <= 1) ==> |r.value| <= tp.maxLength
  {
    match ev
    case MouseDown(pos) => tp.(focus := Collides(tp.rect, pos))
    case KeyDown(key, text) =>
      if !tp.focus then tp
      else if key == KBackspace then tp.(value := if |tp.value| == 0 then "" else tp.value[..|tp.value| - 1])
      else if key == KReturn then tp.(focus := false)
      else if key == KEscape then tp.(focus := false, value := "")
      else if |tp.value| < tp.maxLength then tp.(value := tp.value + text)
      else tp
    case _ => tp
  }

  /** The prompt after each event of `evs` in turn. */
  function PromptEvents(tp: TextPrompt, evs: seq<Event>): TextPrompt
    decreases |evs|
  {
    if |evs| == 0 then tp else PromptEvents(PromptEvent(tp, evs[0]), evs[1..])
  }

  /** Handling one event and then the rest. */
  lemma PromptEventsCons(tp: TextPrompt, ev: Event, evs: seq<Event>)
    ensures PromptEvents(tp, [ev] + evs) == PromptEvents(PromptEvent(tp, ev), evs)
  {
    assert ([ev] + evs)[1..] == evs;
  }

  /** Key presses each producing one character. */
  function Typing(s: string): (evs: seq<Event>)
    ensures |evs| == |s|
    ensures forall k :: 0 <= k < |s| ==> evs[k] == KeyDown(KOther(0), [s[k]])
    decreases |s|
  {
    if |s| == 0 then [] else [KeyDown(KOther(0), [s[0]])] + Typing(s[1..])
  }

  /** Whatever events arrive, a value within the limit stays within it while keys produce at most one character. */
  lemma {:induction false} PromptStaysBounded(tp: TextPrompt, evs: seq<Event>)
    requires |tp.value| <= tp.maxLength
    requires forall k :: 0 <= k < |evs| && evs[k].KeyDown? ==> |evs[k].text| <= 1
    ensures |PromptEvents(tp, evs).value| <= tp.maxLength
    ensures PromptEvents(tp, evs).maxLength == tp.maxLength
    decreases |evs|
  {
    if |evs| > 0 {
      PromptStaysBounded(PromptEvent(tp, evs[0]), evs[1..]);
    }
  }

  /** While unfocused, no key changes the prompt. */
  lemma {:induction false} UnfocusedIgnoresKeys(tp: TextPrompt, evs: seq<Event>)
    requires !tp.focus
    requires forall k :: 0 <= k < |evs| ==> !evs[k].MouseDown?
    ensures PromptEvents(tp, evs) == tp
    decreases |evs|
  {
    if |evs| > 0 {
      UnfocusedIgnoresKeys(PromptEvent(tp, evs[0]), evs[1..]);
    }
  }

  /** Typing into a focused prompt with room for the text appends exactly that text. */
  lemma {:induction false} TypingAppends(tp: TextPrompt, s: string)
    requires tp.focus && |tp.value| + |s| <= tp.maxLength
    ensures PromptEvents(tp, Typing(s)) == tp.(value := tp.value + s)
    decreases |s|
  {
    if |s| > 0 {
      var ev := KeyDown(KOther(0), [s[0]]);
      var tp' := tp.(value := tp.value + [s[0]]);
      var rest := Typing(s[1..]);
      assert PromptEvents(tp, Typing(s)) == PromptEvents(tp', rest) by {
        assert Typing(s) == [ev] + rest;
        PromptEventsCons(tp, ev, rest);
        assert PromptEvent(tp, ev) == tp';
      }
      TypingAppends(tp', s[1..]);
      assert tp'.value + s[1..] == tp.value + s;
    }
  }

  /** The mutable part of a `Button`; whether it fired is returned beside it. */
  datatype Button = Button(rect: Rect, pressed: bool)

  /** `Button.on_event`: the new button, and whether its action was called. */
  function ButtonEvent(b: Button, ev: Event): (r: (Button, bool))
    ensures r.0.rect == b.rect
    ensures r.1 <==> ev.MouseUp? && Collides(b.rect, ev.pos) && b.pressed
    ensures ev.MouseUp? ==> !r.0.pressed
    ensures ev.MouseDown? ==> r.0.pressed == (b.pressed || Collides(b.rect, ev.pos))
    ensures !ev.MouseDown? && !ev.MouseUp? ==> r.0 == b
  {
    match ev
    case MouseDown(pos) => if Collides(b.rect, pos) then (b.(pressed := true), false) else (b, false)
    case MouseUp(pos) =>
      if Collides(b.rect, pos) then
        if b.pressed then (b.(pressed := false), true) else (b, false)
      else (b.(pressed := false), false)
    case _ => (b, false)
  }

  /** How many times the action fires over `evs`. */
  function Fires(b: Button, evs: seq<Event>): nat
    decreases |evs|
  {
    if |evs| == 0 then 0
    else var (b', fired) := ButtonEvent(b, evs[0]); (if fired then 1 else 0) + Fires(b', evs[1..])
  }

  /** How many presses inside the button `evs` holds. */
  function PressesInside(rect: Rect, evs: seq<Event>): nat
    decreases |evs|
  {
    if |evs| == 0 then 0
    else (if evs[0].MouseDown? && Collides(rect, evs[0].pos) then 1 else 0) + PressesInside(rect, evs[1..])
  }

  /** Every firing is paid for by a press inside: at most one per press, plus one if already pressed. */
  lemma {:induction false} FiresAtMostPresses(b: Button, evs: seq<Event>)
    ensures Fires(b, evs) <= PressesInside(b.rect, evs) + (if b.pressed then 1 else 0)
    decreases |evs|
  {
    if |evs| > 0 {
      FiresAtMostPresses(ButtonEvent(b, evs[0]).0, evs[1..]);
    }
  }

  /** A press inside followed by a release inside fires exactly once. */
  lemma ClickFiresOnce(b: Button, p: Point, q: Point)
    requires Collides(b.rect, p) && Collides(b.rect, q)
    ensures Fires(b, [MouseDown(p), MouseUp(q)]) == 1
  {
    var b1 := ButtonEvent(b, MouseDown(p)).0;
    assert Fires(b1, [MouseUp(q)]) == 1 by {
      assert Fires(ButtonEvent(b1, MouseUp(q)).0, []) == 0;
    }
    assert [MouseDown(p), MouseUp(q)][1..] == [MouseUp(q)];
  }

  /** Python's `round` on a number: the nearest integer, ties to the even one. */
  function Round(x: real): (n: int)
    ensures x - 0.5 <= n as real <= x + 0.5
    ensures (n as real == x - 0.5 || n as real == x + 0.5) ==> n % 2 == 0
  {
    var f := x.Floor;
    var d := x - f as real;
    if d < 0.5 then f
    else if d > 0.5 then f + 1
    else if f % 2 == 0 then f else f + 1
  }

  /** `min(max(n, 8), 72)`. */
  function Clamp(n: int): (r: int)
    ensures 8 <= r <= 72
    ensures 8 <= n <= 72 ==> r == n
    ensures n < 8 ==> r == 8
    ensures n > 72 ==> r == 72
  {
    if n < 8 then 8 else if n > 72 then 72 else n
  }

  /** The font size `on_resize` settles on for the scaled size `x`. */
  function FontSize(x: real): (r: int)
    ensures 8 <= r <= 72
  {
    Clamp(Round(x))
  }

  /** Rounding never reverses the order of two sizes. */
  lemma RoundMonotone(x: real, y: real)
    requires x <= y
    ensures Round(x) <= Round(y)
  {
  }

  /** A larger window never gets a smaller font, and a size already in range is kept. */
  lemma FontSizeMonotone(x: real, y: real)
    requires x <= y
    ensures FontSize(x) <= FontSize(y)
    ensures 8 <= Round(x) <= 72 ==> FontSize(x) == Round(x)
  {
    RoundMonotone(x, y);
  }
}
