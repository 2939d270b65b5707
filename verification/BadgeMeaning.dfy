/** What the meta strip of a page shows: its domain, its labels, its time, and what a reader sees of them. */
module BadgeMeaning {
  import opened Text
  import Augment
  import opened Badges

  // ---- the domain -------------------------------------------------------------------------

  /** The name of a page's domain: its surface, unless it is a work note; `know` is all the rest. */
  predicate DomainIs(page: PageMeta, name: string) {
    if page.knowledge == Some(WorkNote) then name == "work"
    else if Under(page.path, "observe") then name == "observe"
    else if Under(page.path, "model") then name == "model"
    else if Under(page.path, "work") then name == "work"
    else name == "know"
  }

  /** The path is that of the directory, or of something in it. */
  predicate Under(path: string, dir: string) { path == dir || (|path| > |dir| && path[..|dir|] == dir && path[|dir|] == '/') }

  lemma {:induction false} HeadIs(path: string, dir: string)
    requires '/' !in dir
    ensures Head(path) == dir <==> Under(path, dir)
  {
    if path == "" || path[0] == '/' {
      if dir != "" { assert dir[0] in dir; }
    } else if dir != "" {
      assert '/' !in dir[1..];
      HeadIs(path[1..], dir[1..]);
      assert dir == [dir[0]] + dir[1..] && path == [path[0]] + path[1..];
      if |path| > |dir| { assert path[..|dir|] == [path[0]] + path[1..][..|dir| - 1]; }
    }
  }

  lemma {:induction false} DomainShown(page: PageMeta)
    ensures DomainIs(page, Name(PageDomain(page)))
  {
    hide Head, Under;
    HeadIs(page.path, "observe");
    HeadIs(page.path, "model");
    HeadIs(page.path, "work");
  }

  // ---- labels -----------------------------------------------------------------------------

  /** `title` is `name` with spaces for its underscores, each word with its first letter a capital and the others small. */
  predicate InTitleCase(title: string, name: string) { |title| == |name| && forall i :: 0 <= i < |name| ==> InCaseAt(title, name, i) }

  predicate InCaseAt(title: string, name: string, i: nat)
    requires i < |name| == |title|
  {
    if name[i] == '_' then title[i] == ' '
    else Lower(title[i]) == Lower(name[i]) && title[i] == if i == 0 || name[i - 1] == '_' then Upper(title[i]) else Lower(title[i])
  }

  predicate TitledAt(t: string, s: string, first: bool, i: nat)
    requires i < |s| == |t|
  {
    if s[i] == '_' then t[i] == ' '
    else t[i] == if (if i == 0 then first else s[i - 1] == '_') then Upper(s[i]) else Lower(s[i])
  }

  lemma {:induction false} TitledIs(s: string, first: bool)
    requires Plain(s)
    ensures |Titled(s, first)| == |s| && forall i :: 0 <= i < |s| ==> TitledAt(Titled(s, first), s, first, i)
  {
    if s != "" {
      hide Upper, Lower;
      var t, u := Titled(s, first), Titled(s[1..], !Letter(s[0]));
      TitledIs(s[1..], !Letter(s[0]));
      assert Letter(s[0]) || s[0] == '_';
      forall i | 0 <= i < |s| ensures TitledAt(t, s, first, i) {
        if i > 0 {
          assert t[i] == u[i - 1] && s[i] == s[1..][i - 1] && TitledAt(u, s[1..], !Letter(s[0]), i - 1);
          if i > 1 { assert s[1..][i - 2] == s[i - 1]; }
        }
      }
    }
  }

  lemma {:induction false} TitledCase(s: string)
    requires Plain(s)
    ensures InTitleCase(Titled(s, true), s)
  {
    TitledIs(s, true);
    hide Titled;
    var t := Titled(s, true);
    forall i | 0 <= i < |s| ensures InCaseAt(t, s, i) { assert TitledAt(t, s, true, i); }
  }

  lemma {:induction false} ClassShown(c: KnowledgeClass)
    ensures InTitleCase(ClassLabel(c), StoredName(c))
  {
    StoredPlain(c);
    hide StoredName, Titled, InTitleCase;
    TitledCase(StoredName(c));
  }

  lemma {:induction false} DomainLabelShown(domain: Domain)
    ensures InTitleCase(Label(domain), Name(domain))
  {}

  // ---- the time ---------------------------------------------------------------------------

  /** The number that digits write. */
  function Number(s: string): nat {
    if s == "" then 0 else 10 * Number(s[..|s| - 1]) + if Digit(s[|s| - 1]) then s[|s| - 1] as int - '0' as int else 0
  }

  lemma {:induction false} NumberOfDecimal(n: nat)
    ensures Number(Decimal(n)) == n
  {
    DecimalLast(n);
    if n >= 10 {
      NumberOfDecimal(n / 10);
    } else {
      assert Decimal(n)[..0] == "";
    }
  }

  lemma {:induction false} NumberZeros(k: nat, s: string)
    ensures Number(Zeros(k) + s) == Number(s)
  {
    if s != "" {
      NumberZeros(k, s[..|s| - 1]);
      assert (Zeros(k) + s)[..|Zeros(k) + s| - 1] == Zeros(k) + s[..|s| - 1];
    } else if k > 0 {
      NumberZeros(k - 1, "");
      assert Zeros(k) + "" == Zeros(k) && Zeros(k)[..|Zeros(k)| - 1] == Zeros(k - 1) == Zeros(k - 1) + "";
    } else {
      assert Zeros(0) + "" == "";
    }
  }

  /** Ten to the power `width`. */
  function Power(width: nat): nat { if width == 0 then 1 else 10 * Power(width - 1) }

  lemma {:induction false} DecimalWidth(n: nat, width: nat)
    requires width > 0 && n < Power(width)
    ensures |Decimal(n)| <= width
  {
    DecimalLast(n);
    if n >= 10 {
      assert n / 10 < Power(width - 1);
      DecimalWidth(n / 10, width - 1);
    }
  }

  lemma {:induction false} ZerosLength(k: nat)
    ensures |Zeros(k)| == k
  {
    if k > 0 { ZerosLength(k - 1); }
  }

  lemma {:induction false} PaddedReads(n: nat, width: nat)
    requires width > 0 && n < Power(width)
    ensures |Padded(n, width)| == width && Number(Padded(n, width)) == n
  {
    DecimalWidth(n, width);
    NumberOfDecimal(n);
    ZerosLength(width - |Decimal(n)|);
    NumberZeros(width - |Decimal(n)|, Decimal(n));
  }

  predicate OnCalendar(t: Minute) { t.year < 10000 && t.month < 100 && t.day < 100 && t.hour < 100 && t.minute < 100 }

  /** The time is read back from its text. */
  lemma {:induction false} RenderedReads(t: Minute)
    requires OnCalendar(t)
    ensures var r := Rendered(t);
            && |r| == 20 && r[4] == r[7] == '-' && r[10] == ' ' && r[13] == ':' && r[16..] == " UTC"
            && t == Minute(Number(r[..4]), Number(r[5..7]), Number(r[8..10]), Number(r[11..13]), Number(r[14..16]))
  {
    assert Power(2) == 100 && Power(4) == 10000 by { assert Power(0) == 1 && Power(1) == 10 && Power(3) == 1000; }
    PaddedReads(t.year, 4);
    PaddedReads(t.month, 2);
    PaddedReads(t.day, 2);
    PaddedReads(t.hour, 2);
    PaddedReads(t.minute, 2);
    hide Padded, Number;
    PiecesAt(Padded(t.year, 4), Padded(t.month, 2), Padded(t.day, 2), Padded(t.hour, 2), Padded(t.minute, 2));
  }

  lemma {:induction false} PiecesAt(y: string, m: string, d: string, h: string, n: string)
    requires |y| == 4 && |m| == |d| == |h| == |n| == 2
    ensures var r := y + "-" + m + "-" + d + " " + h + ":" + n + " UTC";
            && |r| == 20 && r[..4] == y && r[5..7] == m && r[8..10] == d && r[11..13] == h && r[14..16] == n
            && r[4] == r[7] == '-' && r[10] == ' ' && r[13] == ':' && r[16..] == " UTC"
  {}

  // ---- what a reader sees --------------------------------------------------------------------

  /** The text outside the tags. */
  function Visible(s: string, inTag: bool): string {
    if s == "" then ""
    else if inTag then Visible(s[1..], s[0] != '>')
    else if s[0] == '<' then Visible(s[1..], true)
    else [s[0]] + Visible(s[1..], false)
  }

  /** Whether the end of the text is in a tag. */
  predicate EndsInTag(s: string, inTag: bool) {
    if s == "" then inTag else EndsInTag(s[1..], if inTag then s[0] != '>' else s[0] == '<')
  }

  lemma {:induction false} VisibleBoth(a: string, b: string, inTag: bool)
    ensures Visible(a + b, inTag) == Visible(a, inTag) + Visible(b, EndsInTag(a, inTag))
    ensures EndsInTag(a + b, inTag) == EndsInTag(b, EndsInTag(a, inTag))
  {
    if a == "" {
      assert a + b == b;
    } else {
      assert (a + b)[1..] == a[1..] + b;
      VisibleBoth(a[1..], b, if inTag then a[0] != '>' else a[0] == '<');
    }
  }

  /** Markup that a reader sees as `text`. */
  predicate Reads(s: string, text: string) { Visible(s, false) == text && !EndsInTag(s, false) }

  lemma {:induction false} ReadsBoth(a: string, p: string, b: string, q: string)
    requires Reads(a, p) && Reads(b, q)
    ensures Reads(a + b, p + q)
  {
    VisibleBoth(a, b, false);
    hide Visible, EndsInTag;
  }

  predicate NoBrackets(s: string) { '<' !in s && '>' !in s }

  lemma {:induction false} TextReads(s: string)
    requires NoBrackets(s)
    ensures Reads(s, s)
  {
    if s != "" {
      assert s[0] in s && s == [s[0]] + s[1..];
      TextReads(s[1..]);
    }
  }

  lemma {:induction false} InTagReads(inner: string)
    requires NoBrackets(inner)
    ensures Visible(inner + ">", true) == "" && !EndsInTag(inner + ">", true)
  {
    if inner == "" {
      assert "" + ">" == ">" && ">"[1..] == "";
    } else {
      assert inner[0] in inner && (inner + ">")[1..] == inner[1..] + ">";
      InTagReads(inner[1..]);
    }
  }

  lemma {:induction false} TagReads(tag: string, inner: string)
    requires tag == "<" + inner + ">" && NoBrackets(inner)
    ensures Reads(tag, "")
  {
    InTagReads(inner);
    assert tag[1..] == inner + ">";
  }

  lemma {:induction false} BracketsFree(a: string, b: string)
    requires NoBrackets(a) && NoBrackets(b)
    ensures NoBrackets(a + b)
  {}

  lemma {:induction false} SpanReads(open: string, inner: string, text: string)
    requires open == "<" + inner + ">" && NoBrackets(inner) && NoBrackets(text)
    ensures Reads(open + text + "</span>", text)
  {
    TagReads(open, inner);
    TextReads(text);
    assert "</span>" == "<" + "/span" + ">";
    TagReads("</span>", "/span");
    hide Reads, NoBrackets;
    ReadsBoth(open, "", text, text);
    ReadsBoth(open + text, "" + text, "</span>", "");
    assert "" + text + "" == text;
  }

  // ---- the chips ---------------------------------------------------------------------------------

  lemma {:induction false} NumbersPlain(n: nat, width: nat)
    ensures NoBrackets(Decimal(n)) && NoBrackets(Padded(n, width))
  {
    DecimalDigits(n);
    if |Decimal(n)| < width {
      ZerosPlain(width - |Decimal(n)|);
      BracketsFree(Zeros(width - |Decimal(n)|), Decimal(n));
    }
  }

  lemma {:induction false} ZerosPlain(n: nat)
    ensures NoBrackets(Zeros(n))
  {
    if n > 0 { ZerosPlain(n - 1); }
  }

  lemma {:induction false} RenderedPlain(t: Minute)
    ensures NoBrackets(Rendered(t))
  {
    NumbersPlain(t.year, 4);
    NumbersPlain(t.month, 2);
    NumbersPlain(t.day, 2);
    NumbersPlain(t.hour, 2);
    NumbersPlain(t.minute, 2);
    hide Padded, Decimal;
  }

  lemma {:induction false} LabelPlain(s: string)
    requires Plain(s)
    ensures NoBrackets(Titled(s, true))
  {
    TitledIs(s, true);
    hide Titled;
    var t := Titled(s, true);
    forall i | 0 <= i < |t| ensures t[i] != '<' && t[i] != '>' {
      assert TitledAt(t, s, true, i) && (Letter(s[i]) || s[i] == '_');
    }
  }

  lemma {:induction false} NamesPlain(domain: Domain)
    ensures NoBrackets(Name(domain)) && NoBrackets(Label(domain))
  {}

  /** What each chip says, if it is there. */
  function ClassText(page: PageMeta): string {
    if page.knowledge.Some? && page.knowledge != Some(WorkNote) then ClassLabel(page.knowledge.value) else ""
  }

  function OriginText(page: PageMeta): string { if page.generated then "Generated" else "" }

  function TimeText(page: PageMeta): string {
    if page.updated.None? then ""
    else if page.version == 0 then "Updated " + Rendered(page.updated.value)
    else "Updated " + Rendered(page.updated.value) + " \U{00B7} v" + Decimal(page.version)
  }

  lemma {:induction false} EmptyReads()
    ensures Reads("", "")
  {}

  lemma {:induction false} ClassTag()
    ensures "<span class=\"dp-chip\">" == "<" + "span class=\"dp-chip\"" + ">" && NoBrackets("span class=\"dp-chip\"")
  {}

  lemma {:induction false} ClassChipIs(page: PageMeta)
    ensures page.knowledge.None? || page.knowledge == Some(WorkNote) ==> ClassChip(page.knowledge) == ClassText(page) == ""
    ensures page.knowledge.Some? && page.knowledge != Some(WorkNote) ==>
              ClassText(page) == ClassLabel(page.knowledge.value)
              && ClassChip(page.knowledge) == "<span class=\"dp-chip\">" + ClassLabel(page.knowledge.value) + "</span>"
  {
    hide ClassLabel;
  }

  lemma {:induction false} ClassLabelPlain(c: KnowledgeClass)
    ensures NoBrackets(ClassLabel(c))
  {
    StoredPlain(c);
    LabelPlain(StoredName(c));
    hide StoredName, Titled, NoBrackets;
  }

  lemma {:induction false} ClassReads(page: PageMeta)
    ensures Reads(ClassChip(page.knowledge), ClassText(page))
  {
    hide *;
    ClassChipIs(page);
    EmptyReads();
    if page.knowledge.Some? {
      ClassLabelPlain(page.knowledge.value);
      ClassTag();
      SpanReads("<span class=\"dp-chip\">", "span class=\"dp-chip\"", ClassLabel(page.knowledge.value));
    }
  }

  lemma {:induction false} OriginTag()
    ensures var a, b := "span class=\"dp-chip ", "dp-chip--generated\"";
            && "<span class=\"dp-chip " == "<" + a && "dp-chip--generated\">" == b + ">"
            && NoBrackets(a) && NoBrackets(b) && NoBrackets("Generated")
  {}

  lemma {:induction false} OriginChipIs(page: PageMeta)
    ensures GeneratedChip(page.generated)
            == if page.generated then "<span class=\"dp-chip " + "dp-chip--generated\">" + OriginText(page) + "</span>" else OriginText(page)
    ensures OriginText(page) == if page.generated then "Generated" else ""
  {
    var open := "<span class=\"dp-chip " + "dp-chip--generated\">";
    assert open + "Generated" + "</span>" == open + "Generated</span>";
  }

  lemma {:induction false} OriginReads(page: PageMeta)
    ensures Reads(GeneratedChip(page.generated), OriginText(page))
  {
    hide *;
    OriginTag();
    EmptyReads();
    OriginChipIs(page);
    var a, b := "span class=\"dp-chip ", "dp-chip--generated\"";
    BracketsFree(a, b);
    assert "<span class=\"dp-chip " + "dp-chip--generated\">" == "<" + (a + b) + ">";
    SpanReads("<span class=\"dp-chip " + "dp-chip--generated\">", a + b, "Generated");
  }

  lemma {:induction false} TimeTag()
    ensures "<span class=\"dp-meta\">" == "<" + "span class=\"dp-meta\"" + ">" && NoBrackets("span class=\"dp-meta\"")
    ensures NoBrackets("Updated ") && NoBrackets(" \U{00B7} v") && NoBrackets("")
  {}

  lemma {:induction false} TimeChipIs(page: PageMeta)
    requires page.updated.Some?
    ensures var r := Rendered(page.updated.value);
            && TimeText(page) == "Updated " + r + (if page.version == 0 then "" else " \U{00B7} v" + Decimal(page.version))
            && UpdatedChip(page.updated, page.version) == "<span class=\"dp-meta\">" + TimeText(page) + "</span>"
  {
    hide Rendered, Decimal;
    var r, open := Rendered(page.updated.value), "<span class=\"dp-meta\">";
    TimeChip(open, r, if page.version == 0 then "" else " \U{00B7} v" + Decimal(page.version));
    assert "Updated " + r + "" == "Updated " + r;
    assert "Updated " + r + (" \U{00B7} v" + Decimal(page.version)) == "Updated " + r + " \U{00B7} v" + Decimal(page.version);
  }

  lemma {:induction false} NoTime(page: PageMeta)
    requires page.updated.None?
    ensures UpdatedChip(page.updated, page.version) == TimeText(page) == ""
  {}

  lemma {:induction false} TimeReads(page: PageMeta)
    ensures Reads(UpdatedChip(page.updated, page.version), TimeText(page))
  {
    hide *;
    TimeTag();
    if page.updated.None? {
      NoTime(page);
      EmptyReads();
    } else {
      TimeChipIs(page);
      RenderedPlain(page.updated.value);
      NumbersPlain(page.version, 1);
      var r, v := Rendered(page.updated.value), if page.version == 0 then "" else " \U{00B7} v" + Decimal(page.version);
      BracketsFree(" \U{00B7} v", Decimal(page.version));
      BracketsFree("Updated ", r);
      BracketsFree("Updated " + r, v);
      SpanReads("<span class=\"dp-meta\">", "span class=\"dp-meta\"", TimeText(page));
    }
  }

  lemma {:induction false} TimeChip(open: string, r: string, v: string)
    ensures open + ("Updated " + r + v) + "</span>" == open + "Updated " + r + v + "</span>"
  {}

  lemma {:induction false} DomainTag()
    ensures var a, b, c := "span class=\"dp-badge ", "dp-badge--ic\" ", "data-domain=\"";
            && NoBrackets(a) && NoBrackets(b) && NoBrackets(c) && "<span class=\"dp-badge " == "<" + a
  {}

  lemma {:induction false} TagEnds()
    ensures NoBrackets("\"") && NoBrackets("/span") && "\">" == "\"" + ">" && "</span>" == "<" + "/span" + ">"
  {}

  lemma {:induction false} DomainChipIs(domain: Domain, icon: string)
    ensures DomainChip(domain, icon)
            == "<span class=\"dp-badge " + "dp-badge--ic\" " + "data-domain=\"" + Name(domain) + "\">" + icon + Label(domain) + "</span>"
  {
    hide Name, Label;
  }

  lemma {:induction false} DomainReads(domain: Domain, icon: string)
    requires Reads(icon, "")
    ensures Reads(DomainChip(domain, icon), Label(domain))
  {
    hide *;
    DomainTag();
    TagEnds();
    NamesPlain(domain);
    DomainChipIs(domain, icon);
    var a, b, c := "span class=\"dp-badge ", "dp-badge--ic\" ", "data-domain=\"";
    BracketsFree(a, b);
    BracketsFree(a + b, c);
    BracketsFree(a + b + c, Name(domain));
    BracketsFree(a + b + c + Name(domain), "\"");
    var open := "<span class=\"dp-badge " + b + c + Name(domain) + "\">";
    OpenIs(open, "<span class=\"dp-badge ", a, b, c, Name(domain));
    TagReads(open, a + b + c + Name(domain) + "\"");
    TextReads(Label(domain));
    TagReads("</span>", "/span");
    FourRead(open, icon, Label(domain), "</span>");
  }

  lemma {:induction false} FourRead(open: string, icon: string, text: string, close: string)
    requires Reads(open, "") && Reads(icon, "") && Reads(text, text) && Reads(close, "")
    ensures Reads(open + icon + text + close, text)
  {
    hide Reads;
    ReadsBoth(open, "", icon, "");
    ReadsBoth(open + icon, "" + "", text, text);
    ReadsBoth(open + icon + text, "" + "" + text, close, "");
    assert "" + "" + text + "" == text;
  }

  lemma {:induction false} OpenIs(open: string, first: string, a: string, b: string, c: string, name: string)
    requires first == "<" + a && open == first + b + c + name + "\">"
    ensures open == "<" + (a + b + c + name + "\"") + ">"
  {}

  lemma {:induction false} FirstTagText()
    ensures var a, d, p := "p class=\"dp-badges\"", " data-domain=\"", " data-page-version=\"";
            Augment.BADGE_OPENING == "<" + a && NoBrackets(a) && NoBrackets(d) && NoBrackets(p) && NoBrackets("\"") && NoBrackets("")
  {}

  lemma {:induction false} OpeningIs(domain: Domain, version: nat)
    ensures Opening(domain, version)
            == Augment.BADGE_OPENING + " data-domain=\"" + Name(domain) + "\""
               + (if version == 0 then "" else " data-page-version=\"" + Decimal(version) + "\"") + ">"
  {
    hide Name, Decimal;
  }

  lemma {:induction false} OpeningReads(domain: Domain, version: nat)
    ensures Reads(Opening(domain, version), "")
  {
    hide *;
    FirstTagText();
    NamesPlain(domain);
    NumbersPlain(version, 1);
    OpeningIs(domain, version);
    var a, d, p := "p class=\"dp-badges\"", " data-domain=\"", " data-page-version=\"";
    BracketsFree(p, Decimal(version));
    BracketsFree(p + Decimal(version), "\"");
    var v := if version == 0 then "" else p + Decimal(version) + "\"";
    BracketsFree(a, d);
    BracketsFree(a + d, Name(domain));
    BracketsFree(a + d + Name(domain), "\"");
    BracketsFree(a + d + Name(domain) + "\"", v);
    FirstTag(Augment.BADGE_OPENING, a, d, Name(domain), v);
    TagReads(Opening(domain, version), a + d + Name(domain) + "\"" + v);
  }

  lemma {:induction false} FirstTag(first: string, a: string, d: string, name: string, v: string)
    requires first == "<" + a
    ensures first + d + name + "\"" + v + ">" == "<" + (a + d + name + "\"" + v) + ">"
  {}

  lemma {:induction false} LastTag()
    ensures "</p>" == "<" + "/p" + ">" && NoBrackets("/p")
  {}

  /**
   * A reader sees the domain, the class of what is no work note, that the page is
   * generated, when it changed and its version; the icons have no text.
   */
  lemma {:induction false} StripReads(page: PageMeta, icons: Domain -> string)
    requires forall domain :: Reads(icons(domain), "")
    ensures Reads(BadgeMarkup(page, icons), Label(PageDomain(page)) + ClassText(page) + OriginText(page) + TimeText(page))
  {
    hide *;
    var domain := PageDomain(page);
    OpeningReads(domain, page.version);
    DomainReads(domain, icons(domain));
    ClassReads(page);
    OriginReads(page);
    TimeReads(page);
    LastTag();
    TagReads("</p>", "/p");
    FiveRead(Opening(domain, page.version), DomainChip(domain, icons(domain)), Label(domain), ClassChip(page.knowledge), ClassText(page),
             GeneratedChip(page.generated), OriginText(page), UpdatedChip(page.updated, page.version), TimeText(page));
    MarkupIsChips(page, icons);
  }

  lemma {:induction false} MarkupIsChips(page: PageMeta, icons: Domain -> string)
    ensures var domain := PageDomain(page);
            BadgeMarkup(page, icons) == Opening(domain, page.version) + DomainChip(domain, icons(domain)) + ClassChip(page.knowledge)
                                        + GeneratedChip(page.generated) + UpdatedChip(page.updated, page.version) + "</p>"
  {
    hide PageDomain, Opening, DomainChip, ClassChip, GeneratedChip, UpdatedChip;
  }

  lemma {:induction false} FiveRead(o: string, a: string, p: string, b: string, q: string, c: string, r: string, d: string, t: string)
    requires Reads(o, "") && Reads(a, p) && Reads(b, q) && Reads(c, r) && Reads(d, t) && Reads("</p>", "")
    ensures Reads(o + a + b + c + d + "</p>", p + q + r + t)
  {
    hide Reads;
    ReadsBoth(o, "", a, p);
    ReadsBoth(o + a, "" + p, b, q);
    ReadsBoth(o + a + b, "" + p + q, c, r);
    ReadsBoth(o + a + b + c, "" + p + q + r, d, t);
    ReadsBoth(o + a + b + c + d, "" + p + q + r + t, "</p>", "");
    assert "" + p + q + r + t + "" == p + q + r + t;
  }
}
