/**
 Row ids and the interactive list message: encoding, decoding, and what survives WhatsApp's limits
 (app/whatsapp/inbound.py, app/whatsapp/outbound_builders.py).
 */
module Payload {
  import opened Std

  // ---- ids like "gift:product:482" ----

  datatype Decoded = Decoded(namespace_: string, action: string, ref: Option<string>)

  /** Index of the first colon, or the length if there is none. */
  function ColonAt(s: string): (i: nat)
    ensures i <= |s| && (i < |s| ==> s[i] == ':')
    ensures forall k :: 0 <= k < i ==> s[k] != ':'
  {
    if s == [] || s[0] == ':' then 0 else 1 + ColonAt(s[1..])
  }

  /** Splits at the first two colons. */
  function Decode(payload: string): Decoded {
    var i := ColonAt(payload);
    if i == |payload| then Decoded(payload, "", None)
    else
      var rest := payload[i + 1..];
      var j := ColonAt(rest);
      if j == |rest| then Decoded(payload[..i], rest, None)
      else Decoded(payload[..i], rest[..j], Some(rest[j + 1..]))
  }

  function Encode(namespace_: string, action: string, ref: string): string {
    namespace_ + ":" + action + ":" + ref
  }

  /** Decoding undoes encoding whenever neither of the first two parts holds a colon, whatever the third is. */
  lemma {:induction false} DecodeEncode(namespace_: string, action: string, ref: string)
    requires ':' !in namespace_ && ':' !in action
    ensures Decode(Encode(namespace_, action, ref)) == Decoded(namespace_, action, Some(ref))
  {
    var payload := Encode(namespace_, action, ref);
    var rest := action + ":" + ref;
    assert payload == namespace_ + ":" + rest;
    FirstColon(namespace_, rest);
    assert payload[|namespace_| + 1..] == rest;
    FirstColon(action, ref);
    assert rest[|action| + 1..] == ref;
  }

  lemma {:induction false} FirstColon(head: string, tail: string)
    requires ':' !in head
    ensures ColonAt(head + ":" + tail) == |head|
  {
    var s := head + ":" + tail;
    assert s[|head|] == ':';
    assert forall k :: 0 <= k < |head| ==> s[k] == head[k];
  }

  // ---- limits ----

  const LIST_TITLE_MAX := 24
  const LIST_DESC_MAX := 72
  const MAX_LIST_ROWS := 10

  predicate IsSpace(c: char) {
    c == ' ' || c == '\t' || c == '\n' || c == '\r'
  }

  function StripLeft(s: string): string {
    if s != [] && IsSpace(s[0]) then StripLeft(s[1..]) else s
  }

  function StripRight(s: string): (r: string)
    ensures r <= s
  {
    if s != [] && IsSpace(s[|s| - 1]) then StripRight(s[..|s| - 1]) else s
  }

  function Strip(s: string): string {
    StripRight(StripLeft(s))
  }

  function Truncate(text: string, maxLen: nat): (r: string)
    requires maxLen > 0
    ensures |r| <= maxLen
    ensures |Strip(text)| <= maxLen ==> r == Strip(text)
    ensures |Strip(text)| > maxLen ==> r != [] && r[|r| - 1] == '…' && r[..|r| - 1] <= Strip(text)
  {
    var stripped := Strip(text);
    if |stripped| <= maxLen then stripped else StripRight(stripped[..maxLen - 1]) + "…"
  }

  ghost predicate AllSpace(s: string) {
    forall k :: 0 <= k < |s| ==> IsSpace(s[k])
  }

  lemma {:induction false} StripRightIs(s: string)
    ensures var r := StripRight(s); AllSpace(s[|r|..]) && (r != [] ==> !IsSpace(r[|r| - 1]))
  {
    if s != [] && IsSpace(s[|s| - 1]) {
      var before := s[..|s| - 1];
      StripRightIs(before);
      assert s[|StripRight(s)|..] == before[|StripRight(before)|..] + [s[|s| - 1]];
    }
  }

  lemma {:induction false} StripLeftIs(s: string)
    ensures var r := StripLeft(s); |r| <= |s| && s[|s| - |r|..] == r && AllSpace(s[..|s| - |r|])
    ensures StripLeft(s) != [] ==> !IsSpace(StripLeft(s)[0])
  {
    if s != [] && IsSpace(s[0]) {
      StripLeftIs(s[1..]);
      var n := |s| - |StripLeft(s)|;
      assert s[n..] == s[1..][n - 1..] && s[..n] == [s[0]] + s[1..][..n - 1];
    }
  }

  /** Stripping takes off the blanks at both ends and nothing else. */
  lemma {:induction false} StripIs(s: string)
    ensures exists n: nat :: n + |Strip(s)| <= |s| && s[n..n + |Strip(s)|] == Strip(s)
                             && AllSpace(s[..n]) && AllSpace(s[n + |Strip(s)|..])
    ensures Strip(s) != [] ==> !IsSpace(Strip(s)[0]) && !IsSpace(Strip(s)[|Strip(s)| - 1])
  {
    var left := StripLeft(s);
    StripLeftIs(s);
    StripRightIs(left);
    var n, r := |s| - |left|, Strip(s);
    assert s[n..][..|r|] == s[n..n + |r|] && s[n..][|r|..] == s[n + |r|..];
  }

  /** A cut text runs to one before the limit, but for blanks there, and then the ellipsis. */
  lemma {:induction false} CutAtLimit(text: string, maxLen: nat)
    requires maxLen > 0 && |Strip(text)| > maxLen
    ensures var kept := |Truncate(text, maxLen)| - 1;
      && 0 <= kept < maxLen && AllSpace(Strip(text)[kept..maxLen - 1])
      && (kept > 0 ==> !IsSpace(Truncate(text, maxLen)[kept - 1]))
  {
    var cut := Strip(text)[..maxLen - 1];
    StripRightIs(cut);
    assert cut[|StripRight(cut)|..] == Strip(text)[|StripRight(cut)|..maxLen - 1];
  }

  // ---- the list message ----

  datatype ListRow = ListRow(id: string, title: string, description: Option<string>)

  datatype ListSection = ListSection(title: string, rows: seq<ListRow>)

  function SentRow(row: ListRow): ListRow {
    ListRow(row.id, Truncate(row.title, LIST_TITLE_MAX),
            if row.description.None? || row.description == Some("") then None
            else Some(Truncate(row.description.value, LIST_DESC_MAX)))
  }

  function SentRows(rows: seq<ListRow>): seq<ListRow> {
    seq(|rows|, k requires 0 <= k < |rows| => SentRow(rows[k]))
  }

  /** Rows of the first n sections, one after the other. */
  function AllRows(sections: seq<ListSection>, n: nat): seq<ListRow>
    requires n <= |sections|
  {
    if n == 0 then [] else AllRows(sections, n - 1) + sections[n - 1].rows
  }

  /** Rows sent once n sections have been gone through. */
  function Used(sections: seq<ListSection>, n: nat): nat
    requires n <= |sections|
  {
    Min(|AllRows(sections, n)|, MAX_LIST_ROWS)
  }

  /** The sections sent, empty ones left out. */
  function Safe(sections: seq<ListSection>, n: nat): seq<ListSection>
    requires n <= |sections|
  {
    if n == 0 then []
    else
      var section := sections[n - 1];
      var room := MAX_LIST_ROWS - Used(sections, n - 1);
      var rows := section.rows[..Min(|section.rows|, room)];
      var earlier := Safe(sections, n - 1);
      if rows == [] then earlier
      else earlier + [ListSection(Truncate(section.title, LIST_TITLE_MAX), SentRows(rows))]
  }

  /** The builder as written: a row counter across nested loops. */
  method BuildSections(sections: seq<ListSection>) returns (safe: seq<ListSection>)
    ensures safe == Safe(sections, Min(|sections|, MAX_LIST_ROWS))
  {
    safe := [];
    var rowsUsed := 0;
    for n := 0 to Min(|sections|, MAX_LIST_ROWS)
      invariant safe == Safe(sections, n) && rowsUsed == Used(sections, n)
    {
      var section := sections[n];
      var rows: seq<ListRow> := [];
      var k := 0;
      ghost var start := rowsUsed;
      while k < |section.rows| && rowsUsed < MAX_LIST_ROWS
        invariant k <= |section.rows| && rowsUsed == start + k <= MAX_LIST_ROWS
        invariant rows == SentRows(section.rows[..k])
      {
        SentRowsStep(section.rows, k);
        rows := rows + [SentRow(section.rows[k])];
        rowsUsed := rowsUsed + 1;
        k := k + 1;
      }
      SafeStep(sections, n, k);
      if rows != [] {
        safe := safe + [ListSection(Truncate(section.title, LIST_TITLE_MAX), rows)];
      }
    }
  }

  /** One section more, of which k rows found room. */
  lemma {:induction false} SafeStep(sections: seq<ListSection>, n: nat, k: nat)
    requires n < |sections| && k == Min(|sections[n].rows|, MAX_LIST_ROWS - Used(sections, n))
    ensures var rows := SentRows(sections[n].rows[..k]);
      && Safe(sections, n + 1)
         == (if rows == [] then Safe(sections, n)
             else Safe(sections, n) + [ListSection(Truncate(sections[n].title, LIST_TITLE_MAX), rows)])
      && Used(sections, n + 1) == Used(sections, n) + k
  {
  }

  lemma {:induction false} SentRowsStep(rows: seq<ListRow>, k: nat)
    requires k < |rows|
    ensures SentRows(rows[..k + 1]) == SentRows(rows[..k]) + [SentRow(rows[k])]
  {
  }

  lemma {:induction false} AllRowsAppend(a: seq<ListSection>, section: ListSection, n: nat)
    requires n <= |a|
    ensures AllRows(a + [section], n) == AllRows(a, n)
  {
    if n > 0 {
      AllRowsAppend(a, section, n - 1);
    }
  }

  lemma {:induction false} Extended(a: seq<ListSection>, b: seq<ListSection>, title: string, rows: seq<ListRow>)
    requires b == if rows == [] then a else a + [ListSection(title, rows)]
    ensures AllRows(b, |b|) == AllRows(a, |a|) + rows
  {
    if rows != [] {
      AllRowsAppend(a, ListSection(title, rows), |a|);
    }
  }

  function FirstTen(rows: seq<ListRow>): seq<ListRow> {
    rows[..Min(|rows|, MAX_LIST_ROWS)]
  }

  lemma {:induction false} FirstTenAppend(a: seq<ListRow>, b: seq<ListRow>)
    ensures FirstTen(a + b) == FirstTen(a) + b[..Min(|b|, MAX_LIST_ROWS - |FirstTen(a)|)]
  {
  }

  lemma {:induction false} SentRowsAppend(a: seq<ListRow>, b: seq<ListRow>)
    ensures SentRows(a + b) == SentRows(a) + SentRows(b)
  {
  }

  lemma {:induction false} SentRowsOfMore(a: seq<ListRow>, b: seq<ListRow>)
    ensures SentRows(FirstTen(a + b))
      == SentRows(FirstTen(a)) + SentRows(b[..Min(|b|, MAX_LIST_ROWS - |FirstTen(a)|)])
  {
    FirstTenAppend(a, b);
    SentRowsAppend(FirstTen(a), b[..Min(|b|, MAX_LIST_ROWS - |FirstTen(a)|)]);
  }

  /** Has rows, and a title within the limit. */
  ghost predicate WellFormed(section: ListSection) {
    section.rows != [] && |section.title| <= LIST_TITLE_MAX
  }

  /**
   What is sent is the first ten rows of the first n sections, in order and with their ids unchanged; no
   section is empty, and section titles respect the limit.
   */
  lemma {:induction false} SentAreFirstTen(sections: seq<ListSection>, n: nat)
    requires n <= |sections|
    ensures var safe := Safe(sections, n);
      && AllRows(safe, |safe|) == SentRows(FirstTen(AllRows(sections, n)))
      && forall i :: 0 <= i < |safe| ==> WellFormed(safe[i])
  {
    RowsSentAreFirstTen(sections, n);
    SectionsSentAreFull(sections, n);
  }

  /** A row is sent with its id as it is, a title of at most 24 and a description of at most 72 characters, if any. */
  lemma {:induction false} SentRowFits(row: ListRow)
    ensures var sent := SentRow(row);
      && sent.id == row.id && |sent.title| <= 24
      && (|Strip(row.title)| <= 24 ==> sent.title == Strip(row.title))
      && (sent.description.None? <==> row.description.None? || row.description.value == "")
      && (sent.description.Some? ==>
            && |sent.description.value| <= 72
            && (|Strip(row.description.value)| <= 72 ==> sent.description.value == Strip(row.description.value)))
  {
  }

  /** At most ten rows are sent, and all of them if there are no more than ten. */
  lemma {:induction false} AtMostTenRows(sections: seq<ListSection>, n: nat)
    requires n <= |sections|
    ensures var rows, safe := AllRows(sections, n), Safe(sections, n);
      |AllRows(safe, |safe|)| == if |rows| <= 10 then |rows| else 10
    ensures forall i :: 0 <= i < |Safe(sections, n)| ==> |Safe(sections, n)[i].title| <= 24
  {
    SentAreFirstTen(sections, n);
    assert |SentRows(FirstTen(AllRows(sections, n)))| == |FirstTen(AllRows(sections, n))|;
    assert forall i :: 0 <= i < |Safe(sections, n)| ==> WellFormed(Safe(sections, n)[i]);
  }

  lemma {:induction false} SectionsSentAreFull(sections: seq<ListSection>, n: nat)
    requires n <= |sections|
    ensures forall i :: 0 <= i < |Safe(sections, n)| ==> WellFormed(Safe(sections, n)[i])
  {
    if n > 0 {
      SectionsSentAreFull(sections, n - 1);
      var section := sections[n - 1];
      var rows := section.rows[..Min(|section.rows|, MAX_LIST_ROWS - Used(sections, n - 1))];
      if rows != [] {
        assert |SentRows(rows)| == |rows| > 0;
        assert WellFormed(ListSection(Truncate(section.title, LIST_TITLE_MAX), SentRows(rows)));
      }
    }
  }

  lemma {:induction false} SafeRowsStep(sections: seq<ListSection>, n: nat, k: nat)
    requires n < |sections| && k == Min(|sections[n].rows|, MAX_LIST_ROWS - Used(sections, n))
    ensures AllRows(Safe(sections, n + 1), |Safe(sections, n + 1)|)
         == AllRows(Safe(sections, n), |Safe(sections, n)|) + SentRows(sections[n].rows[..k])
  {
    SafeStep(sections, n, k);
    Extended(Safe(sections, n), Safe(sections, n + 1), Truncate(sections[n].title, LIST_TITLE_MAX),
             SentRows(sections[n].rows[..k]));
  }

  lemma {:induction false} RowsSentAreFirstTen(sections: seq<ListSection>, n: nat)
    requires n <= |sections|
    ensures var safe := Safe(sections, n); AllRows(safe, |safe|) == SentRows(FirstTen(AllRows(sections, n)))
  {
    if n > 0 {
      RowsSentAreFirstTen(sections, n - 1);
      var before, section, safe := AllRows(sections, n - 1), sections[n - 1], Safe(sections, n - 1);
      var k := Min(|section.rows|, MAX_LIST_ROWS - Used(sections, n - 1));
      var rows := SentRows(section.rows[..k]);
      SentRowsOfMore(before, section.rows);
      assert SentRows(FirstTen(AllRows(sections, n))) == AllRows(safe, |safe|) + rows;
      SafeRowsStep(sections, n - 1, k);
    }
  }
}
