/**
  The first stage of `config_template`: the text written to `<org>_gen_config` by the
  `config` sub-command, rendered by Jinja2 with its default settings from the four
  optional arguments c (country), l (locality), s (state) and o (org).

  The distinguished-name block is a sequence of guarded entries, each kept only when its
  own variable is not None, in the fixed order C, L, ST, O. The C entry interpolates s,
  not c. The whitespace-control markers `{%- ... -%}` remove every newline and indent
  around the entries, so all present entries land on one line after a four-space indent.
  Everything from the CN line on is a Jinja string literal, emitted as text: the profile
  is itself a template, whose alt_names part is modelled in module AltNames.
*/
module ProfileTemplate {

  import opened Optional
  import DomainPattern

  datatype DnLabel = C | L | ST | O

  datatype DnEntry = DnEntry(key: DnLabel, value: string)

  /** `{{ v }}` in Jinja2: the string itself, or "None" for Python's None. */
  function Interpolate(v: Option<string>): string {
    match v
    case Some(x) => x
    case None => "None"
  }

  /**
    The four `{% if ... is not none %}` blocks, in template order: at most one entry per
    key, where L and O carry their own argument, and C as well as ST carry the state.
  */
  function DnEntries(c: Option<string>, l: Option<string>, s: Option<string>, o: Option<string>): (r: seq<DnEntry>)
    ensures |r| <= 4
    ensures forall e | e in r :: e.value == Interpolate(if e.key == L then l else if e.key == O then o else s)
  {
    (if c.Some? then [DnEntry(C, Interpolate(s))] else [])
    + (if l.Some? then [DnEntry(L, Interpolate(l))] else [])
    + (if s.Some? then [DnEntry(ST, Interpolate(s))] else [])
    + (if o.Some? then [DnEntry(O, Interpolate(o))] else [])
  }

  /** Position of a key in the template. */
  function Rank(key: DnLabel): nat {
    match key
    case C => 0
    case L => 1
    case ST => 2
    case O => 3
  }

  /** The value of the first entry carrying `key`, if any. */
  function Lookup(entries: seq<DnEntry>, key: DnLabel): Option<string> {
    if |entries| == 0 then None
    else if entries[0].key == key then Some(entries[0].value)
    else Lookup(entries[1..], key)
  }

  /**
    Each entry is present exactly when its own variable is not None; L, ST and O carry
    their own value, while C carries the state argument (Jinja's "None" when the state
    was not given).
  */
  lemma EntriesGated(c: Option<string>, l: Option<string>, s: Option<string>, o: Option<string>)
    ensures var r := DnEntries(c, l, s, o);
      && Lookup(r, C) == (if c.Some? then Some(Interpolate(s)) else None)
      && Lookup(r, L) == (if l.Some? then Some(l.value) else None)
      && Lookup(r, ST) == (if s.Some? then Some(s.value) else None)
      && Lookup(r, O) == (if o.Some? then Some(o.value) else None)
  {
    var r := DnEntries(c, l, s, o);
    var r1 := if c.Some? then [DnEntry(C, Interpolate(s))] else [];
    var r2 := if l.Some? then [DnEntry(L, Interpolate(l))] else [];
    var r3 := if s.Some? then [DnEntry(ST, Interpolate(s))] else [];
    var r4 := if o.Some? then [DnEntry(O, Interpolate(o))] else [];
    assert r == r1 + (r2 + (r3 + r4));
    GatedLookup(r1, r2, r3, r4, C);
    GatedLookup(r1, r2, r3, r4, L);
    GatedLookup(r1, r2, r3, r4, ST);
    GatedLookup(r1, r2, r3, r4, O);
  }

  lemma GatedLookup(r1: seq<DnEntry>, r2: seq<DnEntry>, r3: seq<DnEntry>, r4: seq<DnEntry>, key: DnLabel)
    requires |r1| <= 1 && |r2| <= 1 && |r3| <= 1 && |r4| <= 1
    ensures Lookup(r1 + (r2 + (r3 + r4)), key) ==
      if |r1| == 1 && r1[0].key == key then Some(r1[0].value)
      else if |r2| == 1 && r2[0].key == key then Some(r2[0].value)
      else if |r3| == 1 && r3[0].key == key then Some(r3[0].value)
      else if |r4| == 1 && r4[0].key == key then Some(r4[0].value)
      else None
  {
    LookupAppend(r1, r2 + (r3 + r4), key);
    LookupAppend(r2, r3 + r4, key);
    LookupAppend(r3, r4, key);
    LookupSingle(r1, key);
    LookupSingle(r2, key);
    LookupSingle(r3, key);
    LookupSingle(r4, key);
  }

  lemma LookupSingle(r: seq<DnEntry>, key: DnLabel)
    requires |r| <= 1
    ensures Lookup(r, key) == if |r| == 1 && r[0].key == key then Some(r[0].value) else None
  {
    if |r| == 1 {
      assert Lookup(r[1..], key) == None;
    }
  }

  lemma {:induction false} LookupAppend(a: seq<DnEntry>, b: seq<DnEntry>, key: DnLabel)
    ensures Lookup(a + b, key) == if Lookup(a, key).Some? then Lookup(a, key) else Lookup(b, key)
    decreases |a|
  {
    if |a| == 0 {
      assert a + b == b;
    } else {
      assert (a + b)[1..] == a[1..] + b;
      LookupAppend(a[1..], b, key);
    }
  }

  /** The entries follow the order C, L, ST, O, so no key occurs twice. */
  lemma EntriesOrdered(c: Option<string>, l: Option<string>, s: Option<string>, o: Option<string>)
    ensures var r := DnEntries(c, l, s, o);
      forall i, j | 0 <= i < j < |r| :: Rank(r[i].key) < Rank(r[j].key)
  {
  }

  /** One entry per given argument. */
  lemma EntryCount(c: Option<string>, l: Option<string>, s: Option<string>, o: Option<string>)
    ensures |DnEntries(c, l, s, o)| ==
      (if c.Some? then 1 else 0) + (if l.Some? then 1 else 0)
      + (if s.Some? then 1 else 0) + (if o.Some? then 1 else 0)
  {
  }

  /** A given organisation is always the last entry, with its own value. */
  lemma OrgEntryLast(c: Option<string>, l: Option<string>, s: Option<string>, org: string)
    ensures var r := DnEntries(c, l, s, Some(org));
      |r| > 0 && r[|r| - 1] == DnEntry(O, org)
  {
  }

  /** A profile created with only an organisation holds only its O entry. */
  lemma OrgOnlyProfile()
    ensures DnEntries(None, None, None, Some("Acme")) == [DnEntry(O, "Acme")]
  {
  }

  /** A country given without a state yields a C entry whose value is the text "None". */
  lemma CountryWithoutState(country: string)
    ensures DnEntries(Some(country), None, None, None) == [DnEntry(C, "None")]
  {
  }

  /** The text before the distinguished-name entries, lines 13-18 of the template. */
  const RequestSection: string :=
    "[ req ]\n    default_bits           = 2048\n    distinguished_name     = req_distinguished_name\n    prompt                 = no\n    req_extensions         = v3_req\n[ req_distinguished_name ]\n"

  /**
    The Jinja string literal that closes the template, printed as it stands: the CN line,
    the v3_req section and the alt_names section, with their placeholders left for a
    second rendering.
  */
  const SecondStage: string :=
    "    CN                     = {{ cn }}\n[ v3_req ]\n    subjectAltName          = @alt_names\n\n[alt_names]\n    DNS.1 = {{ cn }}\n    {%- for domain in sans %}\n        {%- if domain %}\n    DNS.{{ loop.index +1 }} = {{ domain }}\n        {%- endif %}\n    {%- endfor %}\n"

  /** An entry's key, padded to the template's column, and the equals sign. */
  function KeyText(key: DnLabel): string {
    match key
    case C => "C                      = "
    case L => "L                      = "
    case ST => "ST                     = "
    case O => "O                      = "
  }

  /** The text of one entry: its key text, then the value. */
  function EntryText(e: DnEntry): string {
    KeyText(e.key) + e.value
  }

  /** The entries one after another, with nothing in between. */
  function EntriesText(entries: seq<DnEntry>): string {
    if |entries| == 0 then "" else EntryText(entries[0]) + EntriesText(entries[1..])
  }

  /**
    The rendered profile: the fixed request section, a four-space indent, the entries,
    one newline, and the second-stage literal (Jinja drops the template's own final newline).
    The fixed parts do not depend on the arguments: every rendering starts with the
    request section and ends with the second-stage literal, placeholders intact.
  */
  function RenderProfile(c: Option<string>, l: Option<string>, s: Option<string>, o: Option<string>): (r: string)
    ensures |r| >= |RequestSection| + |SecondStage|
    ensures r[..|RequestSection|] == RequestSection
    ensures r[|r| - |SecondStage|..] == SecondStage
  {
    RequestSection + "    " + EntriesText(DnEntries(c, l, s, o)) + "\n" + SecondStage
  }

  /**
    With newline-free values, the text of all entries holds no newline: however many
    entries are present, they share the single line after the request section.
  */
  lemma {:induction false} EntriesOnOneLine(entries: seq<DnEntry>)
    requires forall i | 0 <= i < |entries| :: DomainPattern.NoNewline(entries[i].value)
    ensures DomainPattern.NoNewline(EntriesText(entries))
  {
    if |entries| > 0 {
      EntriesOnOneLine(entries[1..]);
      KeyTextOnOneLine(entries[0].key);
      NoNewlineAppend(KeyText(entries[0].key), entries[0].value);
      NoNewlineAppend(EntryText(entries[0]), EntriesText(entries[1..]));
    }
  }

  lemma KeyTextOnOneLine(key: DnLabel)
    ensures DomainPattern.NoNewline(KeyText(key))
  {
  }

  lemma NoNewlineAppend(a: string, b: string)
    requires DomainPattern.NoNewline(a) && DomainPattern.NoNewline(b)
    ensures DomainPattern.NoNewline(a + b)
  {
    forall i | 0 <= i < |a + b| ensures (a + b)[i] != '\n' {
      if i >= |a| {
        assert (a + b)[i] == b[i - |a|];
      }
    }
  }

  lemma {:induction false} EntriesTextAppend(a: seq<DnEntry>, b: seq<DnEntry>)
    ensures EntriesText(a + b) == EntriesText(a) + EntriesText(b)
    decreases |a|
  {
    if |a| == 0 {
      assert a + b == b;
    } else {
      assert (a + b)[1..] == a[1..] + b;
      EntriesTextAppend(a[1..], b);
    }
  }

  lemma EntriesTextSingle(e: DnEntry)
    ensures EntriesText([e]) == EntryText(e)
  {
    assert EntriesText([e][1..]) == "";
  }

  /**
    A full profile: the country "US" appears nowhere, the C key carries the state, and the
    four entries run together on one line.
  */
  lemma FullProfileLine()
    ensures EntriesText(DnEntries(Some("US"), Some("Austin"), Some("TX"), Some("Acme"))) ==
      EntryText(DnEntry(C, "TX")) + EntryText(DnEntry(L, "Austin"))
      + EntryText(DnEntry(ST, "TX")) + EntryText(DnEntry(O, "Acme"))
  {
    var e1, e2, e3, e4 := DnEntry(C, "TX"), DnEntry(L, "Austin"), DnEntry(ST, "TX"), DnEntry(O, "Acme");
    assert DnEntries(Some("US"), Some("Austin"), Some("TX"), Some("Acme")) == [e1] + [e2] + [e3] + [e4];
    EntriesTextAppend([e1] + [e2] + [e3], [e4]);
    EntriesTextAppend([e1] + [e2], [e3]);
    EntriesTextAppend([e1], [e2]);
    EntriesTextSingle(e1);
    EntriesTextSingle(e2);
    EntriesTextSingle(e3);
    EntriesTextSingle(e4);
  }
}
