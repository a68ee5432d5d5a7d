/** The metrics page: a fixed buffer filled from the ring, newest row first. */
module Page {
  import opened Records
  import opened Text
  import opened Ring

  const PAGE_MAX := 65536
  const RESERVE := 512
  const TAIL := "</table></div></div></div></body></html>"

  function Row(format: Value -> string, m: Metric): string {
    "<tr><td>" + m.sensorId + "</td><td>" + m.typeName + "</td><td>" + format(m.value) + "</td><td>"
    + m.timestamp + "</td></tr>"
  }

  /** The bounds of the C fields, and of `%.2f` of a double. */
  ghost predicate Bounded(format: Value -> string, m: Metric) {
    && |m.sensorId| < MAX_ID_LEN && |m.typeName| < MAX_TYPE_LEN && |m.timestamp| < MAX_TIMESTAMP_LEN
    && |format(m.value)| <= 313
  }

  lemma RowFits(format: Value -> string, m: Metric)
    requires Bounded(format, m)
    ensures |Row(format, m)| <= 459 < RESERVE
  {
    assert |"<tr><td>"| + |"</td><td>"| + |"</td><td>"| + |"</td><td>"| + |"</td></tr>"| == 45;
  }

  /** The `n` newest rows, newest first. */
  function Rows(format: Value -> string, log: seq<Metric>, n: nat): string
    requires n <= |log|
  {
    if n == 0 then "" else Rows(format, log, n - 1) + Row(format, log[|log| - n])
  }

  /** `snprintf` at the end of `body`: it keeps room for a NUL. */
  function Print(body: string, text: string): string
    requires |body| < PAGE_MAX
  {
    if |body| + |text| < PAGE_MAX then body + text else body + text[..PAGE_MAX - 1 - |body|]
  }

  /**
   The locked loop of `route_metrics` with the head before it and the tail after it. The page is never
   cut short as long as its head leaves room for the tail, and exactly then; it shows a newest-first
   prefix of the ring, which is the whole ring unless the rows have reached the reserve.
   */
  method MetricsPage(ring: Buffer<Metric>, head: string, format: Value -> string)
    returns (body: string, offset: nat, shown: nat)
    requires ring.Valid() && |head| < PAGE_MAX
    requires forall k :: 0 <= k < |ring.log| ==> Bounded(format, ring.log[k])
    ensures shown <= Min(|ring.log|, ring.slots.Length)
    ensures shown < Min(|ring.log|, ring.slots.Length) ==>
      |head| + |Rows(format, ring.log, shown)| >= 65024
    ensures var page := head + Rows(format, ring.log, shown) + "</table></div></div></div></body></html>";
            && body == page[..Min(|page|, 65535)]
            && (|page| <= 65535 <==> |head| <= 65495)
    ensures |head| < 65024 ==> offset == |body| <= 65522
  {
    hide Row, Print;
    body, offset := head, |head|;
    var j := 0;
    assert head + "" == head;
    while j < ring.count && offset < PAGE_MAX - RESERVE
      invariant 0 <= j <= ring.count && body == head + Rows(format, ring.log, j) && offset == |body|
      invariant j > 0 ==> |head| < PAGE_MAX - RESERVE && offset <= 65482
      decreases ring.count - j
    {
      var m := ring.Back(j);
      var row := Row(format, m);
      RowFits(format, m);
      PrintFits(body, row);
      assert body + row == head + Rows(format, ring.log, j + 1);
      body, offset := Print(body, row), offset + |row|;
      j := j + 1;
    }
    shown := j;
    PrintFits(body, TAIL);
    body, offset := Print(body, TAIL), offset + |TAIL|;
  }

  lemma PrintFits(body: string, text: string)
    requires |body| < PAGE_MAX
    ensures Print(body, text) == (body + text)[..Min(|body + text|, PAGE_MAX - 1)]
  {
  }

  /** What the server stores is bounded, whatever it was sent. */
  lemma StoredIsBounded(format: Value -> string, id: string, v: Value, ts: string, name: string)
    requires |format(v)| <= 313
    ensures Bounded(format, Metric(Cut(id, MAX_ID_LEN), v, Cut(ts, MAX_TIMESTAMP_LEN), Cut(name, MAX_TYPE_LEN)))
  {
  }

  // What a reader sees

  /** The texts between the tags so far; `text` is what has been seen since the last tag. */
  datatype Seen = Seen(cells: seq<string>, inTag: bool, text: string)

  function Flush(text: string): seq<string> {
    if text == "" then [] else [text]
  }

  function Look(st: Seen, c: char): Seen {
    if c == '<' then Seen(st.cells + Flush(st.text), true, "")
    else if st.inTag then st.(inTag := c != '>')
    else st.(text := st.text + [c])
  }

  function Scan(s: string, st: Seen): Seen {
    if s == "" then st else Scan(s[1..], Look(st, s[0]))
  }

  lemma {:induction false} ScanConcat(a: string, b: string, st: Seen)
    ensures Scan(a + b, st) == Scan(b, Scan(a, st))
    decreases |a|
  {
    if a == "" {
      assert a + b == b;
    } else {
      assert (a + b)[1..] == a[1..] + b;
      ScanConcat(a[1..], b, Look(st, a[0]));
    }
  }

  lemma {:induction false} ScanText(w: string, st: Seen)
    requires '<' !in w && !st.inTag
    ensures Scan(w, st) == st.(text := st.text + w)
    decreases |w|
  {
    if w == "" {
      assert st.text + w == st.text;
    } else {
      assert st.text + [w[0]] + w[1..] == st.text + w;
      ScanText(w[1..], Look(st, w[0]));
    }
  }

  lemma {:induction false} ScanInTag(t: string, st: Seen)
    requires '<' !in t && '>' !in t && st.inTag
    ensures Scan(t, st) == st
    decreases |t|
  {
    if t != "" {
      ScanInTag(t[1..], st);
    }
  }

  lemma ScanTag(t: string, st: Seen)
    requires '<' !in t && '>' !in t && !st.inTag
    ensures Scan("<" + t + ">", st) == Seen(st.cells + Flush(st.text), false, "")
  {
    var st' := Look(st, '<');
    ScanOne('<', st);
    ScanConcat("<", t, st);
    ScanInTag(t, st');
    ScanConcat("<" + t, ">", st);
    ScanOne('>', st');
    hide Scan;
  }

  lemma ScanOne(c: char, st: Seen)
    ensures Scan([c], st) == Look(st, c)
  {
    assert Scan([], Look(st, c)) == Look(st, c);
  }

  lemma ScanTags(t: string, u: string, st: Seen)
    requires '<' !in t && '>' !in t && '<' !in u && '>' !in u && !st.inTag
    ensures Scan("<" + t + ">" + ("<" + u + ">"), st) == Seen(st.cells + Flush(st.text), false, "")
  {
    hide Scan;
    ScanTag(t, st);
    ScanTag(u, Seen(st.cells + Flush(st.text), false, ""));
    ScanConcat("<" + t + ">", "<" + u + ">", st);
    assert st.cells + Flush(st.text) + [] == st.cells + Flush(st.text);
  }

  /** A table cell that is not empty and holds no tag. */
  ghost predicate CellText(w: string) {
    w != "" && '<' !in w
  }

  /** A cell's text after `a`, and the two tags after it. */
  lemma ScanCell(a: string, w: string, t: string, u: string, st: Seen, cells: seq<string>)
    requires CellText(w) && '<' !in t && '>' !in t && '<' !in u && '>' !in u
    requires Scan(a, st) == Seen(cells, false, "")
    ensures Scan(a + w + ("<" + t + ">" + ("<" + u + ">")), st) == Seen(cells + [w], false, "")
  {
    hide Scan;
    ScanConcat(a, w, st);
    ScanText(w, Seen(cells, false, ""));
    assert "" + w == w;
    ScanConcat(a + w, "<" + t + ">" + ("<" + u + ">"), st);
    ScanTags(t, u, Seen(cells, false, w));
  }

  ghost predicate Showable(format: Value -> string, m: Metric) {
    CellText(m.sensorId) && CellText(m.typeName) && CellText(format(m.value)) && CellText(m.timestamp)
  }

  /** A row shows id, type, value and timestamp, in this order. */
  lemma RowShows(format: Value -> string, m: Metric, cells: seq<string>)
    requires Showable(format, m)
    ensures Scan(Row(format, m), Seen(cells, false, ""))
         == Seen(cells + [m.sensorId, m.typeName, format(m.value), m.timestamp], false, "")
  {
    hide Scan;
    var st := Seen(cells, false, "");
    ScanTags("tr", "td", st);
    var a := "<tr><td>";
    assert a == "<" + "tr" + ">" + ("<" + "td" + ">") && cells + [] == cells;
    var between, end := "</td><td>", "</td></tr>";
    assert between == "<" + "/td" + ">" + ("<" + "td" + ">");
    assert end == "<" + "/td" + ">" + ("<" + "/tr" + ">");
    ScanCell(a, m.sensorId, "/td", "td", st, cells);
    ScanCell(a + m.sensorId + between, m.typeName, "/td", "td", st, cells + [m.sensorId]);
    ScanCell(a + m.sensorId + between + m.typeName + between, format(m.value), "/td", "td", st,
      cells + [m.sensorId] + [m.typeName]);
    ScanCell(a + m.sensorId + between + m.typeName + between + format(m.value) + between, m.timestamp, "/td", "/tr", st,
      cells + [m.sensorId] + [m.typeName] + [format(m.value)]);
    assert cells + [m.sensorId] + [m.typeName] + [format(m.value)] + [m.timestamp]
        == cells + [m.sensorId, m.typeName, format(m.value), m.timestamp];
  }

  /** The cells of the `n` newest metrics, newest first. */
  function NewestCells(format: Value -> string, log: seq<Metric>, n: nat): seq<string>
    requires n <= |log|
  {
    seq(4 * n, j requires 0 <= j < 4 * n =>
      var m := log[|log| - 1 - j / 4];
      if j % 4 == 0 then m.sensorId else if j % 4 == 1 then m.typeName
      else if j % 4 == 2 then format(m.value) else m.timestamp)
  }

  /** What is read off the rows is the log, newest entry first, four cells each. */
  lemma {:induction false} RowsShowLog(format: Value -> string, log: seq<Metric>, n: nat)
    requires n <= |log| && forall k :: 0 <= k < |log| ==> Showable(format, log[k])
    ensures Scan(Rows(format, log, n), Seen([], false, "")) == Seen(NewestCells(format, log, n), false, "")
    decreases n
  {
    if n > 0 {
      hide Scan, Row;
      RowsShowLog(format, log, n - 1);
      var m := log[|log| - n];
      ScanConcat(Rows(format, log, n - 1), Row(format, m), Seen([], false, ""));
      RowShows(format, m, NewestCells(format, log, n - 1));
      assert NewestCells(format, log, n)
          == NewestCells(format, log, n - 1) + [m.sensorId, m.typeName, format(m.value), m.timestamp];
    }
  }
}
