/**
 * Process standard output as the Python 2 `print` statement and `file.write` see it:
 * the text written so far and the file's `softspace` flag. `print a, b` writes a space
 * before every item while `softspace` is set; after an item `softspace` is set unless the
 * item ends with whitespace other than ' '; the closing newline (absent with a trailing
 * comma) and `file.write` clear it.
 */
module Console {
  import opened Text

  /** What has been written, and whether the next printed item is preceded by a space. */
  datatype Screen = Screen(text: string, softspace: bool)

  /** Whether printing `s` leaves `softspace` set. */
  predicate SetsSoftspace(s: string) {
    s == [] || !IsSpace(s[|s| - 1]) || s[|s| - 1] == ' '
  }

  function PrintItem(scr: Screen, s: string): (r: Screen)
    ensures r.softspace == SetsSoftspace(s)
  {
    Screen(scr.text + (if scr.softspace then " " else "") + s, SetsSoftspace(s))
  }

  /** The items of one `print` statement, left to right. */
  function PrintItems(scr: Screen, items: seq<string>): Screen
    decreases |items|
  {
    if items == [] then scr else PrintItem(PrintItems(scr, items[..|items| - 1]), items[|items| - 1])
  }

  /** `print items...` (with `newline`) or `print items...,` (without). */
  function Printed(scr: Screen, items: seq<string>, newline: bool): (r: Screen)
    ensures newline ==> !r.softspace
  {
    var s := PrintItems(scr, items);
    if newline then Screen(s.text + "\n", false) else s
  }

  /** `sys.stdout.write(s)`: the text as is; `softspace` is cleared. */
  function Written(scr: Screen, s: string): (r: Screen)
    ensures r.text == scr.text + s && !r.softspace
  {
    Screen(scr.text + s, false)
  }

  /** `sys.stdout`. */
  class Stdout {
    var text: string
    var softspace: bool

    function State(): Screen
      reads this
    {
      Screen(text, softspace)
    }

    constructor()
      ensures text == "" && !softspace
    {
      text := "";
      softspace := false;
    }

    /** One `print` statement: its items in order, then the newline unless it ends with a comma. */
    method Print(items: seq<string>, newline: bool)
      modifies this
      ensures State() == Printed(old(State()), items, newline)
    {
      ghost var start := State();
      for i := 0 to |items|
        invariant State() == PrintItems(start, items[..i])
      {
        assert items[..i + 1][..i] == items[..i];
        text := text + (if softspace then " " else "") + items[i];
        softspace := SetsSoftspace(items[i]);
      }
      assert items[..|items|] == items;
      if newline {
        text := text + "\n";
        softspace := false;
      }
    }

    method Write(s: string)
      modifies this
      ensures State() == Written(old(State()), s)
    {
      text := text + s;
      softspace := false;
    }
  }

  // ---------------------------------------------------------------------------
  // Lemmas

  /** `print s` writes `s` and the newline, after a space if `softspace` was set. */
  lemma PrintOne(scr: Screen, s: string)
    ensures Printed(scr, [s], true) == Screen(scr.text + (if scr.softspace then " " else "") + s + "\n", false)
  {
    assert [s][..0] == [];
    assert PrintItems(scr, [s][..0]) == scr;
  }

  /** `print s,` prints the one item. */
  lemma PrintItemsOne(scr: Screen, s: string)
    ensures PrintItems(scr, [s]) == PrintItem(scr, s)
  {
    assert [s][..0] == [];
  }

  /** `print s, t,` prints the two items in turn. */
  lemma PrintItemsTwo(scr: Screen, s: string, t: string)
    ensures PrintItems(scr, [s, t]) == PrintItem(PrintItem(scr, s), t)
  {
    assert [s, t][..1] == [s];
    PrintItemsOne(scr, s);
  }

  /**
   * From a fresh line, a `print` of items that each leave `softspace` set (the last one
   * aside) writes the items joined by single spaces, then the newline.
   */
  lemma {:induction false} PrintPlainLine(scr: Screen, items: seq<string>)
    requires !scr.softspace && items != []
    requires forall i :: 0 <= i < |items| - 1 ==> SetsSoftspace(items[i])
    ensures PrintItems(scr, items).text == scr.text + Join(" ", items)
    ensures Printed(scr, items, true) == Screen(scr.text + Join(" ", items) + "\n", false)
    decreases |items|
  {
    if |items| == 1 {
      assert items[..0] == [];
    } else {
      var init := items[..|items| - 1];
      var last := items[|items| - 1];
      PrintPlainLine(scr, init);
      assert PrintItems(scr, init).softspace by {
        assert init == init[..|init| - 1] + [init[|init| - 1]];
      }
      JoinSnoc(" ", init, last);
      assert items == init + [last];
    }
  }
}
