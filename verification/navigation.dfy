/**
 Key handling while the network list is shown: `match_evt` moves the selection
 marker and classifies the key as continue, select or quit.
 */
module Navigation {
  import opened Listing

  /** Width of `selector_pos` and of the line counter: Rust's `u8`. */
  type u8 = x: int | 0 <= x < 256

  /** The keys the program tells apart; every other termion key is `OtherKey`. */
  datatype Key = Up | Down | Esc | Char(c: char) | OtherKey

  /** A decoded terminal event; mouse and unsupported sequences are `OtherEvent`. */
  datatype Event = KeyPress(key: Key) | OtherEvent

  /** What the main loop does after a key in the list view. */
  datatype Response = Continue | Select | Quit

  /** New selector position together with the response. */
  datatype Moved = Moved(response: Response, pos: u8)

  /** Up: one line higher, never above the first data line. */
  function MoveUp(pos: u8): (p: u8)
    ensures p <= pos <= p + 1
    ensures p == pos <==> pos == 0
  {
    if pos > 0 then pos - 1 else 0
  }

  /** When Down is free of `u8` arithmetic faults (a debug build panics on each):
      the fold counting `count` data lines stays within 255, `count - 1` does not
      underflow, and `pos + 1` does not overflow. */
  predicate DownDefined(pos: u8, count: nat)
  {
    1 <= count <= 255 && pos < 255
  }

  /** Down: one line lower, clamped to the last data line (`count - 1`). */
  function MoveDown(pos: u8, count: nat): (p: u8)
    requires DownDefined(pos, count)
    ensures p < count
    ensures p <= pos + 1
    ensures p == pos + 1 || p == count - 1
  {
    var bound := count - 1;
    if pos + 1 <= bound then pos + 1 else bound
  }

  /** `match_evt`: Up and Down move the marker, `q` quits, Enter selects, and
      every other event (including `r`) asks for a refresh. */
  function MatchEvt(evt: Event, list: string, pos: u8): (m: Moved)
    requires evt == KeyPress(Down) ==> DownDefined(pos, DataCount(list))
    ensures m.response == Quit <==> evt == KeyPress(Char('q'))
    ensures m.response == Select <==> evt == KeyPress(Char('\n'))
    ensures evt == KeyPress(Up) ==> m.pos == MoveUp(pos)
    ensures evt == KeyPress(Down) ==> m.pos == MoveDown(pos, DataCount(list))
    ensures evt != KeyPress(Up) && evt != KeyPress(Down) ==> m.pos == pos
  {
    match evt
    case KeyPress(Up) => Moved(Continue, MoveUp(pos))
    case KeyPress(Down) => Moved(Continue, MoveDown(pos, DataCount(list)))
    case KeyPress(Char('r')) => Moved(Continue, pos)
    case KeyPress(Char('q')) => Moved(Quit, pos)
    case KeyPress(Char('\n')) => Moved(Select, pos)
    case _ => Moved(Continue, pos)
  }

  /** The marker position after feeding `evts` to `MatchEvt` on a fixed list. It
      never leaves the list: every position reached indexes a data line. */
  function Navigate(list: string, pos: u8, evts: seq<Event>): (p: u8)
    requires 1 <= DataCount(list) <= 255
    requires pos < DataCount(list)
    ensures p < DataCount(list)
    decreases |evts|
  {
    if |evts| == 0 then pos
    else Navigate(list, MatchEvt(evts[0], list, pos).pos, evts[1..])
  }

  /** `k` copies of one event. */
  function Repeat(k: nat, e: Event): (es: seq<Event>)
    ensures |es| == k
    ensures forall i :: 0 <= i < k ==> es[i] == e
  {
    if k == 0 then [] else [e] + Repeat(k - 1, e)
  }

  /** Pressing Up at least `pos` times reaches the first entry. */
  lemma {:induction false} UpReachesTop(list: string, pos: u8, k: nat)
    requires 1 <= DataCount(list) <= 255
    requires pos < DataCount(list)
    requires k >= pos
    ensures Navigate(list, pos, Repeat(k, KeyPress(Up))) == 0
    decreases k
  {
    var es := Repeat(k, KeyPress(Up));
    if k > 0 {
      assert es[1..] == Repeat(k - 1, KeyPress(Up));
      UpReachesTop(list, MoveUp(pos), k - 1);
    }
  }

  /** Pressing Down often enough reaches the last entry. */
  lemma {:induction false} DownReachesBottom(list: string, pos: u8, k: nat)
    requires 1 <= DataCount(list) <= 255
    requires pos < DataCount(list)
    requires pos + k >= DataCount(list) - 1
    ensures Navigate(list, pos, Repeat(k, KeyPress(Down))) == DataCount(list) - 1
    decreases k
  {
    var es := Repeat(k, KeyPress(Down));
    if k > 0 {
      assert es[1..] == Repeat(k - 1, KeyPress(Down));
      DownReachesBottom(list, MoveDown(pos, DataCount(list)), k - 1);
    }
  }

  /** Only Up and Down move the marker: a run of other events keeps it in place. */
  lemma {:induction false} OtherEventsKeepPosition(list: string, pos: u8, evts: seq<Event>)
    requires 1 <= DataCount(list) <= 255
    requires pos < DataCount(list)
    requires forall i :: 0 <= i < |evts| ==> evts[i] != KeyPress(Up) && evts[i] != KeyPress(Down)
    ensures Navigate(list, pos, evts) == pos
    decreases |evts|
  {
    if |evts| > 0 {
      OtherEventsKeepPosition(list, pos, evts[1..]);
    }
  }
}
