/**
  The free-text notes column of an old-gold exchange row carries two fields
  in the mini-format `Description: <particulars> | HSN Code: <code>`.
  Both forms (advance-booking-form.tsx and the gold-exchange page) build and
  read it the same way; this module is that one definition.
*/
module Notes {
  import opened Basics
  import opened Text

  const DescriptionLabel := "Description:"
  const HsnLabel := "HSN Code:"
  const DefaultParticulars := "Old Gold Exchange"
  const DefaultHsn := "7113"

  datatype NoteFields = NoteFields(particulars: string, hsnCode: string)

  /**
    The capture of `/<key>\s*([^|]+)/` before trimming: the first occurrence
    of `key` whose following text has something other than '|' before the
    next '|' (or the end), and that text. White space the pattern's `\s*`
    would skip is left in; `trim` removes it.
  */
  function FindField(s: string, key: string): (r: Option<string>)
    requires key != []
    ensures r.Some? ==> r.value != [] && '|' !in r.value
    decreases |s|
  {
    if |s| < |key| then None
    else if StartsWith(s, key) && UpToBar(s[|key|..]) != [] then Some(UpToBar(s[|key|..]))
    else FindField(s[1..], key)
  }

  /** What the search returns is the text after some occurrence of the key, up to the next '|'. */
  lemma {:induction false} FindFieldFollowsKey(s: string, key: string)
    requires key != [] && FindField(s, key).Some?
    ensures exists i :: 0 <= i <= |s| - |key| && StartsWith(s[i..], key) && FindField(s, key).value == UpToBar(s[i + |key|..])
    decreases |s|
  {
    if StartsWith(s, key) && UpToBar(s[|key|..]) != [] {
      assert s[0..] == s;
    } else {
      FindFieldFollowsKey(s[1..], key);
      var j :| 0 <= j <= |s[1..]| - |key| && StartsWith(s[1..][j..], key) && FindField(s[1..], key).value == UpToBar(s[1..][j + |key|..]);
      assert s[1..][j..] == s[j + 1..];
      assert s[1..][j + |key|..] == s[j + 1 + |key|..];
    }
  }

  /** `parseNotes(notes)`: each field is its trimmed capture, or its default when the key has none. */
  function ParseNotes(notes: Option<string>): NoteFields
  {
    if notes.None? || notes.value == [] then NoteFields(DefaultParticulars, DefaultHsn)
    else
      var n := notes.value;
      NoteFields(
        match FindField(n, DescriptionLabel) { case Some(c) => Trim(c) case None => DefaultParticulars },
        match FindField(n, HsnLabel) { case Some(c) => Trim(c) case None => DefaultHsn })
  }

  /** `Description: ${p}` */
  function DescriptionClause(p: string): string
  {
    DescriptionLabel + " " + p
  }

  /** `HSN Code: ${h}` */
  function HsnClause(h: string): string
  {
    HsnLabel + " " + h
  }

  /**
    The notes builder: the non-empty clauses `Description: p` and `HSN Code: h`
    joined by " | ", or `null` when both are empty.
  */
  function EncodeNotes(particulars: string, hsnCode: string): Option<string>
  {
    var clauses := (if particulars != [] then [DescriptionClause(particulars)] else [])
                 + (if hsnCode != [] then [HsnClause(hsnCode)] else []);
    if clauses == [] then None
    else if |clauses| == 1 then Some(clauses[0])
    else Some(clauses[0] + " | " + clauses[1])
  }

  // ---------------------------------------------------------------------------
  // Properties of the parser

  /** An empty or absent notes value reads as the two defaults. */
  lemma ParseNotesOfNothing()
    ensures ParseNotes(None) == NoteFields(DefaultParticulars, DefaultHsn)
    ensures ParseNotes(Some("")) == NoteFields(DefaultParticulars, DefaultHsn)
  {
  }

  lemma {:induction false} FindFieldWithoutLabel(s: string, key: string)
    requires key != [] && !Contains(s, key)
    ensures FindField(s, key) == None
    decreases |s|
  {
    assert s[0..] == s;
    if |s| >= |key| {
      assert !StartsWith(s, key);
      forall i | 0 <= i <= |s[1..]| ensures !StartsWith(s[1..][i..], key) {
        assert s[1..][i..] == s[i + 1..];
      }
      FindFieldWithoutLabel(s[1..], key);
    }
  }

  /** Notes that never mention a key leave that field at its default. */
  lemma {:induction false} ParseNotesMissingLabels(n: string)
    ensures !Contains(n, DescriptionLabel) ==> ParseNotes(Some(n)).particulars == DefaultParticulars
    ensures !Contains(n, HsnLabel) ==> ParseNotes(Some(n)).hsnCode == DefaultHsn
  {
    if !Contains(n, DescriptionLabel) { FindFieldWithoutLabel(n, DescriptionLabel); }
    if !Contains(n, HsnLabel) { FindFieldWithoutLabel(n, HsnLabel); }
  }

  /**
    Whenever a field is read from the notes it is the trimmed text that follows
    an occurrence of its key, up to the next '|' or the end.
  */
  lemma {:induction false} ParseNotesReadsAfterLabel(n: string)
    ensures var f := ParseNotes(Some(n));
      && (f.particulars == DefaultParticulars || exists i :: 0 <= i <= |n| - |DescriptionLabel| && StartsWith(n[i..], DescriptionLabel) && f.particulars == Trim(UpToBar(n[i + |DescriptionLabel|..])))
      && (f.hsnCode == DefaultHsn || exists i :: 0 <= i <= |n| - |HsnLabel| && StartsWith(n[i..], HsnLabel) && f.hsnCode == Trim(UpToBar(n[i + |HsnLabel|..])))
  {
    if n != [] {
      if FindField(n, DescriptionLabel).Some? { FindFieldFollowsKey(n, DescriptionLabel); }
      if FindField(n, HsnLabel).Some? { FindFieldFollowsKey(n, HsnLabel); }
    }
  }

  lemma {:induction false} FindFieldAtStart(key: string, rest: string)
    requires key != [] && UpToBar(rest) != []
    ensures FindField(key + rest, key) == Some(UpToBar(rest))
  {
    assert StartsWith(key + rest, key);
    assert (key + rest)[|key|..] == rest;
  }

  /** Positions before `|a|` that do not start the key are skipped by the search. */
  lemma {:induction false} FindFieldSkips(a: string, b: string, key: string)
    requires key != []
    requires forall i :: 0 <= i < |a| ==> !StartsWith((a + b)[i..], key)
    ensures FindField(a + b, key) == FindField(b, key)
    decreases |a|
  {
    if a != [] {
      assert (a + b)[0..] == a + b;
      assert (a + b)[1..] == a[1..] + b;
      forall i | 0 <= i < |a[1..]| ensures !StartsWith((a[1..] + b)[i..], key) {
        assert (a[1..] + b)[i..] == (a + b)[i + 1..];
      }
      FindFieldSkips(a[1..], b, key);
    } else {
      assert a + b == b;
    }
  }

  lemma {:induction false} UpToBarBeforeBar(x: string, y: string)
    requires '|' !in x
    ensures UpToBar(x + "|" + y) == x
    decreases |x|
  {
    if x != [] {
      assert (x + "|" + y)[1..] == x[1..] + "|" + y;
      UpToBarBeforeBar(x[1..], y);
    } else {
      assert x + "|" + y == "|" + y;
    }
  }

  lemma {:induction false} UpToBarWithoutBar(x: string)
    requires '|' !in x
    ensures UpToBar(x) == x
  {
    if x != [] {
      UpToBarWithoutBar(x[1..]);
    }
  }

  lemma {:induction false} ParticularsFound(n: string, v: string)
    requires FindField(n, DescriptionLabel) == Some(v)
    ensures ParseNotes(Some(n)).particulars == Trim(v)
  {
  }

  /** A description clause at the start, followed by " | " and more, reads back as the description. */
  lemma {:induction false} ReadDescriptionBeforeBar(p: string, y: string)
    requires p != [] && Trim(p) == p && '|' !in p
    ensures ParseNotes(Some(DescriptionClause(p) + " | " + y)).particulars == p
  {
    FindDescriptionBeforeBar(p, y);
    TrimOfPadded(" ", p, " ");
    ParticularsFound(DescriptionClause(p) + " | " + y, " " + p + " ");
  }

  lemma {:induction false} FindDescriptionBeforeBar(p: string, y: string)
    requires p != [] && '|' !in p
    ensures FindField(DescriptionClause(p) + " | " + y, DescriptionLabel) == Some(" " + p + " ")
  {
    var x := " " + p + " ";
    var rest := x + "|" + (" " + y);
    assert DescriptionClause(p) + " | " + y == DescriptionLabel + rest;
    UpToBarBeforeBar(x, " " + y);
    FindFieldAtStart(DescriptionLabel, rest);
  }

  /** A description clause alone reads back as the description. */
  lemma {:induction false} ReadDescriptionAlone(p: string)
    requires p != [] && Trim(p) == p && '|' !in p
    ensures ParseNotes(Some(DescriptionClause(p))).particulars == p
  {
    FindDescriptionAlone(p);
    TrimAfterSpace(p);
    ParticularsFound(DescriptionClause(p), " " + p);
  }

  lemma {:induction false} FindDescriptionAlone(p: string)
    requires p != [] && '|' !in p
    ensures FindField(DescriptionClause(p), DescriptionLabel) == Some(" " + p)
  {
    var rest := " " + p;
    assert DescriptionClause(p) == DescriptionLabel + rest;
    UpToBarWithoutBar(rest);
    FindFieldAtStart(DescriptionLabel, rest);
  }

  /** An HSN clause reads back as the code once the search has reached it. */
  lemma {:induction false} ReadHsnClause(h: string)
    requires h != [] && Trim(h) == h && '|' !in h
    ensures FindField(HsnClause(h), HsnLabel).Some?
    ensures Trim(FindField(HsnClause(h), HsnLabel).value) == h
  {
    var rest := " " + h;
    assert HsnClause(h) == HsnLabel + rest;
    UpToBarWithoutBar(rest);
    FindFieldAtStart(HsnLabel, rest);
    TrimAfterSpace(h);
  }

  /** No character of "Description: " is an 'H'. */
  lemma NoHInDescriptionPrefix(i: int)
    requires 0 <= i < |DescriptionLabel + " "|
    ensures (DescriptionLabel + " ")[i] != 'H'
  {
  }

  /** No character of "HSN Code: " is a 'D'. */
  lemma NoDInHsnPrefix(i: int)
    requires 0 <= i < |HsnLabel + " "|
    ensures (HsnLabel + " ")[i] != 'D'
  {
  }

  /** With a description that does not contain "HSN Code:", no occurrence of that key starts before the separator. */
  lemma {:induction false} NoHsnLabelBefore(p: string, b: string)
    requires '|' !in p && !Contains(p, HsnLabel)
    ensures forall i :: 0 <= i < |DescriptionClause(p) + " | "| ==> !StartsWith((DescriptionClause(p) + " | " + b)[i..], HsnLabel)
  {
    var d := DescriptionLabel + " ";
    var a := DescriptionClause(p) + " | ";
    var s := a + b;
    assert |d| == 13;
    assert |HsnLabel| == 9;
    assert a == d + p + " | ";
    forall i | 0 <= i < |a| ensures !StartsWith(s[i..], HsnLabel) {
      if i < 13 {
        NoHInDescriptionPrefix(i);
        assert s[i] == d[i];
        assert s[i..][0] == s[i];
      } else if i + 9 <= 13 + |p| {
        assert s[i..][..9] == p[i - 13..][..9];
        assert !StartsWith(p[i - 13..], HsnLabel);
      } else if i < 13 + |p| {
        var k := 13 + |p| - i;
        assert 1 <= k <= 8;
        assert s[i + k] == a[13 + |p|] == ' ';
        if k == 3 {
          assert s[i + 4] == a[14 + |p|] == '|';
          assert |s[i..]| < 9 || s[i..][4] != HsnLabel[4];
        } else {
          assert |s[i..]| < 9 || s[i..][k] != HsnLabel[k];
        }
      } else {
        assert s[i..][0] == s[i] == a[i];
        assert a[i] == ' ' || a[i] == '|';
      }
    }
  }

  lemma {:induction false} NoDescriptionLabelInHsnClause(h: string)
    requires !Contains(h, DescriptionLabel)
    ensures !Contains(HsnClause(h), DescriptionLabel)
  {
    var d := HsnLabel + " ";
    var s := HsnClause(h);
    assert |d| == 10;
    assert s == d + h;
    forall i | 0 <= i <= |s| ensures !StartsWith(s[i..], DescriptionLabel) {
      if i < 10 {
        NoDInHsnPrefix(i);
        assert s[i..][0] == s[i] == d[i];
      } else {
        assert s[i..] == h[i - 10..];
      }
    }
  }

  lemma {:induction false} NoHsnLabelInDescriptionClause(p: string)
    requires !Contains(p, HsnLabel)
    ensures !Contains(DescriptionClause(p), HsnLabel)
  {
    var d := DescriptionLabel + " ";
    var s := DescriptionClause(p);
    assert |d| == 13;
    assert s == d + p;
    forall i | 0 <= i <= |s| ensures !StartsWith(s[i..], HsnLabel) {
      if i < 13 {
        NoHInDescriptionPrefix(i);
        assert s[i..][0] == s[i] == d[i];
      } else {
        assert s[i..] == p[i - 13..];
      }
    }
  }

  lemma {:induction false} RoundTripBoth(p: string, h: string)
    requires p != [] && h != []
    requires Trim(p) == p && Trim(h) == h && '|' !in p && '|' !in h
    requires !Contains(p, HsnLabel)
    ensures ParseNotes(EncodeNotes(p, h)) == NoteFields(p, h)
  {
    var a := DescriptionClause(p) + " | ";
    var b := HsnClause(h);
    assert EncodeNotes(p, h) == Some(a + b);
    ReadDescriptionBeforeBar(p, b);
    NoHsnLabelBefore(p, b);
    FindFieldSkips(a, b, HsnLabel);
    ReadHsnClause(h);
  }

  lemma {:induction false} RoundTripDescriptionOnly(p: string)
    requires p != [] && Trim(p) == p && '|' !in p
    requires !Contains(p, HsnLabel)
    ensures ParseNotes(EncodeNotes(p, "")) == NoteFields(p, DefaultHsn)
  {
    assert EncodeNotes(p, "") == Some(DescriptionClause(p));
    ReadDescriptionAlone(p);
    NoHsnLabelInDescriptionClause(p);
    FindFieldWithoutLabel(DescriptionClause(p), HsnLabel);
  }

  lemma {:induction false} RoundTripHsnOnly(h: string)
    requires h != [] && Trim(h) == h && '|' !in h
    requires !Contains(h, DescriptionLabel)
    ensures ParseNotes(EncodeNotes("", h)) == NoteFields(DefaultParticulars, h)
  {
    assert EncodeNotes("", h) == Some(HsnClause(h));
    assert HsnClause(h) != [];
    NoDescriptionLabelInHsnClause(h);
    FindFieldWithoutLabel(HsnClause(h), DescriptionLabel);
    ReadHsnClause(h);
  }

  /**
    Round trip: reading back the notes built from trimmed, '|'-free fields gives
    the fields, and an empty field comes back as its default. The description
    must not itself contain "HSN Code:", and, when there is no description, the
    code must not contain "Description:" (the parser takes the first occurrence
    of each key anywhere in the text).
  */
  lemma {:induction false} ParseEncodeRoundTrip(p: string, h: string)
    requires Trim(p) == p && Trim(h) == h && '|' !in p && '|' !in h
    requires !Contains(p, HsnLabel)
    requires p == [] ==> !Contains(h, DescriptionLabel)
    ensures ParseNotes(EncodeNotes(p, h))
         == NoteFields(if p == [] then DefaultParticulars else p, if h == [] then DefaultHsn else h)
  {
    if p != [] && h != [] {
      RoundTripBoth(p, h);
    } else if p != [] {
      RoundTripDescriptionOnly(p);
    } else if h != [] {
      RoundTripHsnOnly(h);
    } else {
      assert EncodeNotes(p, h) == None;
    }
  }

  /**
    The builder yields `null` exactly when both fields are empty, never an
    empty text, and otherwise the clauses of the non-empty fields, the
    description first, joined by " | ".
  */
  lemma {:induction false} EncodeNotesIsNullOnlyWhenEmpty(p: string, h: string)
    ensures EncodeNotes(p, h).None? <==> p == [] && h == []
    ensures EncodeNotes(p, h).Some? ==> EncodeNotes(p, h).value != []
    ensures p != [] ==> StartsWith(EncodeNotes(p, h).value, DescriptionClause(p))
    ensures p != [] && h == [] ==> EncodeNotes(p, h) == Some(DescriptionClause(p))
    ensures p == [] && h != [] ==> EncodeNotes(p, h) == Some(HsnClause(h))
    ensures p != [] && h != [] ==> EncodeNotes(p, h) == Some(DescriptionClause(p) + " | " + HsnClause(h))
  {
  }
}
