/** The keypad haiku viewer (ee110b_hw5/haiku_app.c and haiku_app.h):
    four constant haikus of four lines, each line four positioned text
    parts; a key selects a haiku by its row and a line by its column,
    and the line is drawn on the 4x16 character display. */
module HaikuApp {
  import opened Types

  /** Width of the character display, in columns. */
  const DISPLAY_COLS: nat := 16
  /** Rows of the character display. */
  const DISPLAY_ROWS: nat := 4

  /** `part_t`: where a piece of text goes and the text. */
  datatype Part = Part(row: uint32, col: uint32, text: string)

  /** `line_t`: exactly four parts. */
  type Line = s: seq<Part> | |s| == 4 witness [Part(0, 0, ""), Part(0, 0, ""), Part(0, 0, ""), Part(0, 0, "")]

  /** `haiku_t`: exactly four lines, three verses and the source. */
  type Haiku = s: seq<Line> | |s| == 4
    witness var l: Line := [Part(0, 0, ""), Part(0, 0, ""), Part(0, 0, ""), Part(0, 0, "")]; [l, l, l, l]

  const Haiku1: Haiku := [
    [Part(0, 0, "Tiny"), Part(1, 4, "chips"), Part(2, 7, "hum"), Part(3, 10, "softly")],
    [Part(0, 0, "Logic"), Part(1, 1, "weaves through"), Part(2, 5, "circuits"), Part(3, 11, "tight")],
    [Part(0, 0, "Worlds"), Part(1, 4, "in code"), Part(2, 7, "take"), Part(3, 10, "flight")],
    [Part(1, 4, "3/6/2024"), Part(2, 1, "OpenAI ChatGPT"), Part(0, 0, ""), Part(0, 0, "")]]

  const Haiku2: Haiku := [
    [Part(0, 0, "Silent"), Part(1, 4, "lines"), Part(2, 8, "of"), Part(3, 10, "code")],
    [Part(0, 0, "Tiny"), Part(1, 1, "worlds"), Part(2, 5, "within"), Part(3, 8, "circuits")],
    [Part(0, 0, "Whispers"), Part(1, 4, "of"), Part(2, 7, "machines"), Part(3, 10, "")],
    [Part(1, 4, "3/6/2024"), Part(2, 1, "Microsoft Bing"), Part(0, 0, ""), Part(0, 0, "")]]

  const Haiku3: Haiku := [
    [Part(0, 0, "Tiny"), Part(1, 4, "heart"), Part(2, 8, "of"), Part(3, 10, "code")],
    [Part(0, 0, "Whispers"), Part(1, 1, "life"), Part(2, 2, "to"), Part(3, 3, "hidden things")],
    [Part(0, 0, "Makes"), Part(1, 4, "the world"), Part(2, 7, "hum"), Part(3, 10, "soft")],
    [Part(1, 4, "3/6/2024"), Part(2, 2, "Google Gemini"), Part(0, 0, ""), Part(0, 0, "")]]

  const Haiku4: Haiku := [
    [Part(0, 0, "Tiny"), Part(1, 4, "circuits"), Part(2, 13, "hum"), Part(3, 10, "")],
    [Part(0, 0, "Invisible"), Part(2, 9, "yet"), Part(3, 11, "vital"), Part(3, 11, "")],
    [Part(0, 0, "World"), Part(1, 4, "runs"), Part(2, 6, "on their"), Part(3, 12, "code")],
    [Part(1, 4, "3/6/2024"), Part(2, 0, "Anthropic Claude"), Part(0, 0, ""), Part(0, 0, "")]]

  /** haiku1..haiku4, in the order keypad rows 0..3 select them. */
  const Haikus: seq<Haiku> := [Haiku1, Haiku2, Haiku3, Haiku4]

  /** A part lies on the display: its row exists and its text ends
      within the row. */
  predicate Fits(p: Part)
  {
    p.row < DISPLAY_ROWS && p.col + |p.text| <= DISPLAY_COLS
  }

  /** Line 3 of a haiku is its source: the date, then the author. */
  predicate IsSourceLine(l: Line)
  {
    l[0] == Part(1, 4, "3/6/2024") && l[1].row == 2 && |l[1].text| > 0
  }

  predicate WellLaidOut(h: Haiku)
  {
    (forall i, j :: 0 <= i < 4 && 0 <= j < 4 ==> Fits(h[i][j])) && IsSourceLine(h[3])
  }

  lemma {:induction false} HaikuLayout(k: nat)
    requires k < |Haikus|
    ensures WellLaidOut(Haikus[k])
  {
    var h := Haikus[k];
    forall i, j | 0 <= i < 4 && 0 <= j < 4
      ensures Fits(h[i][j])
    {
      if k == 0 {
        assert Fits(Haiku1[i][j]);
      } else if k == 1 {
        assert Fits(Haiku2[i][j]);
      } else if k == 2 {
        assert Fits(Haiku3[i][j]);
      } else {
        assert Fits(Haiku4[i][j]);
      }
    }
  }

  datatype HaikuAction =
    | ClearDisplay
    /** Display(row, col, text, len) */
    | Display(row: nat, col: nat, text: string, len: int)

  /** The line a key shows: haiku `row`, line 3 - `col`. */
  function SelectedLine(row: byte, col: byte): (l: Line)
    requires row < 4 && col < 4
  {
    Haikus[row][3 - col]
  }

  /** The display calls that draw a line, one per part in part order. */
  function DrawLine(l: Line): (acts: seq<HaikuAction>)
    ensures |acts| == 4
    ensures forall i :: 0 <= i < 4 ==> acts[i] == Display(l[i].row, l[i].col, l[i].text, -1)
  {
    seq(4, i requires 0 <= i < 4 => Display(l[i].row, l[i].col, l[i].text, -1))
  }

  /** `App_processEvent(evt)`: the display calls it makes. */
  function ProcessEvent(data: uint32): (acts: seq<HaikuAction>)
    ensures DecodeKey(data).0 >= 4 ==> acts == [Display(0, 0, "row error", 16)]
    ensures DecodeKey(data).0 < 4 && DecodeKey(data).1 >= 4 ==> acts == [Display(0, 0, "col error", 16)]
    ensures DecodeKey(data).0 < 4 && DecodeKey(data).1 < 4 ==>
              |acts| == 5 && acts[0] == ClearDisplay
              && acts[1..] == DrawLine(SelectedLine(DecodeKey(data).0, DecodeKey(data).1))
    ensures ClearDisplay in acts <==> DecodeKey(data).0 < 4 && DecodeKey(data).1 < 4
  {
    var (row, col) := DecodeKey(data);
    if row >= 4 then [Display(0, 0, "row error", 16)]
    else if col >= 4 then [Display(0, 0, "col error", 16)]
    else [ClearDisplay] + DrawLine(SelectedLine(row, col))
  }

  /** Every display call a key makes writes inside the 4x16 display. */
  lemma {:induction false} EveryKeyDrawsOnScreen(data: uint32)
    ensures forall a :: a in ProcessEvent(data) && a.Display? ==>
              a.row < DISPLAY_ROWS && (a.len == -1 ==> a.col + |a.text| <= DISPLAY_COLS)
  {
    var rc := DecodeKey(data);
    if rc.0 < 4 && rc.1 < 4 {
      var l := SelectedLine(rc.0, rc.1);
      LineFits(rc.0, 3 - rc.1);
      var acts := ProcessEvent(data);
      var draw := DrawLine(l);
      assert acts[1..] == draw;
      forall a | a in acts && a.Display?
        ensures a.row < DISPLAY_ROWS && (a.len == -1 ==> a.col + |a.text| <= DISPLAY_COLS)
      {
        var i :| 0 <= i < |acts| && acts[i] == a;
        assert a == draw[i - 1];
        assert Fits(l[i - 1]);
      }
    }
  }

  /** Every part of every line of every haiku fits the display. */
  lemma LineFits(k: nat, i: nat)
    requires k < |Haikus| && i < 4
    ensures forall j :: 0 <= j < 4 ==> Fits(Haikus[k][i][j])
  {
    HaikuLayout(k);
  }

  /** Column 0 of every haiku row shows the haiku's source: the date at
      row 1, column 4, then the author on row 2. */
  lemma ColumnZeroShowsSource(row: byte)
    requires row < 4
    ensures var acts := ProcessEvent(row * 0x100);
      acts[1] == Display(1, 4, "3/6/2024", -1) && acts[2].row == 2
  {
    HaikuLayout(row);
    assert DecodeKey(row * 0x100) == (row, 0);
  }

  /** Every line of every haiku is selected by some key: line l of haiku
      h by row h, column 3 - l. */
  lemma KeysCoverLines(h: nat, l: nat)
    requires h < 4 && l < 4
    ensures DecodeKey(KeyWord(h, 3 - l)) == (h, 3 - l)
    ensures SelectedLine(h, 3 - l) == Haikus[h][l]
  {
    KeyWordRoundTrip(h, 3 - l);
  }

  /** A key with both row and column out of range reports only the row. */
  lemma RowCheckedFirst(data: uint32)
    requires DecodeKey(data).0 >= 4 && DecodeKey(data).1 >= 4
    ensures ProcessEvent(data) == [Display(0, 0, "row error", 16)]
  {
  }

  /** One step of the `App_run` loop, in the order it happens. */
  datatype RunStep = Processed(data: uint32, acts: seq<HaikuAction>) | MemoryFreed(data: uint32)

  /** The inner loop of `App_run`: while the queue is not empty, dequeue
      the oldest event, process it and free it. */
  method Drain(q: seq<uint32>) returns (trace: seq<RunStep>)
    ensures |trace| == 2 * |q|
    ensures forall i :: 0 <= i < |q| ==>
              trace[2 * i] == Processed(q[i], ProcessEvent(q[i])) && trace[2 * i + 1] == MemoryFreed(q[i])
  {
    trace := [];
    var rest := q;
    while rest != []
      invariant |rest| <= |q| && rest == q[|q| - |rest|..]
      invariant |trace| == 2 * (|q| - |rest|)
      invariant forall i :: 0 <= i < |q| - |rest| ==>
                  trace[2 * i] == Processed(q[i], ProcessEvent(q[i])) && trace[2 * i + 1] == MemoryFreed(q[i])
      decreases |rest|
    {
      var evt := rest[0];
      rest := rest[1..];
      trace := trace + [Processed(evt, ProcessEvent(evt)), MemoryFreed(evt)];
    }
  }
}
