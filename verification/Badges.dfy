/** The meta strip of a page, and augmenting with it. */
module Badges {
  import opened Text
  import opened Augment

  /** What `docs.pages` admits; an absent class is None. */
  datatype KnowledgeClass = Architecture | Operation | Reference | Policy | Decision | Evidence | Design | WorkNote

  datatype Domain = Work | Know | Model | Observe

  /** A timestamp in UTC. */
  datatype Minute = Minute(year: nat, month: nat, day: nat, hour: nat, minute: nat)

  /** What the strip shows of a page; version 0 stands for none. */
  datatype PageMeta = PageMeta(path: string, knowledge: Option<KnowledgeClass>, generated: bool, updated: Option<Minute>, version: nat)

  /** `path.split("/", 1)[0]`. */
  function Head(path: string): string {
    if path == "" || path[0] == '/' then "" else [path[0]] + Head(path[1..])
  }

  /** `page_domain`. */
  function PageDomain(page: PageMeta): Domain {
    if page.knowledge == Some(WorkNote) then Work
    else
      var head := Head(page.path);
      if head == "observe" then Observe else if head == "model" then Model else if head == "work" then Work else Know
  }

  function Name(domain: Domain): string {
    match domain case Work => "work" case Know => "know" case Model => "model" case Observe => "observe"
  }

  function Label(domain: Domain): string {
    match domain case Work => "Work" case Know => "Know" case Model => "Model" case Observe => "Observe"
  }

  /** The class as it is stored. */
  function StoredName(c: KnowledgeClass): string {
    match c
    case Architecture => "ARCHITECTURE"
    case Operation => "OPERATION"
    case Reference => "REFERENCE"
    case Policy => "POLICY"
    case Decision => "DECISION"
    case Evidence => "EVIDENCE"
    case Design => "DESIGN"
    case WorkNote => "WORK_NOTE"
  }

  predicate Letter(c: char) { 'a' <= c <= 'z' || 'A' <= c <= 'Z' }

  function Upper(c: char): char { if 'a' <= c <= 'z' then (c as int - 32) as char else c }

  function Lower(c: char): char { if 'A' <= c <= 'Z' then (c as int + 32) as char else c }

  /** `replace("_", " ").title()`, from the first character of a word or within one. */
  function Titled(s: string, first: bool): string {
    if s == "" then ""
    else [if s[0] == '_' then ' ' else if first then Upper(s[0]) else Lower(s[0])] + Titled(s[1..], !Letter(s[0]))
  }

  /** `html.escape(knowledge_class.replace("_", " ").title())`; there is nothing to escape in these. */
  function ClassLabel(c: KnowledgeClass): string { Titled(StoredName(c), true) }

  /** `n` with at least `width` digits. */
  function Padded(n: nat, width: nat): string {
    if |Decimal(n)| >= width then Decimal(n) else Zeros(width - |Decimal(n)|) + Decimal(n)
  }

  function Zeros(n: nat): string { if n == 0 then "" else Zeros(n - 1) + "0" }

  /** `%Y-%m-%d %H:%M UTC`. */
  function Rendered(t: Minute): string {
    Padded(t.year, 4) + "-" + Padded(t.month, 2) + "-" + Padded(t.day, 2) + " "
    + Padded(t.hour, 2) + ":" + Padded(t.minute, 2) + " UTC"
  }

  function DomainChip(domain: Domain, icon: string): string {
    "<span class=\"dp-badge " + "dp-badge--ic\" " + "data-domain=\"" + Name(domain) + "\">" + icon + Label(domain) + "</span>"
  }

  function ClassChip(c: Option<KnowledgeClass>): string {
    match c
    case None => ""
    case Some(known) => if known.WorkNote? then "" else "<span class=\"dp-chip\">" + ClassLabel(known) + "</span>"
  }

  function GeneratedChip(generated: bool): string {
    if generated then "<span class=\"dp-chip " + "dp-chip--generated\">" + "Generated</span>" else ""
  }

  function UpdatedChip(updated: Option<Minute>, version: nat): string {
    match updated
    case None => ""
    case Some(t) =>
      "<span class=\"dp-meta\">" + "Updated " + Rendered(t) + (if version == 0 then "" else " \U{00B7} v" + Decimal(version)) + "</span>"
  }

  function VersionAttribute(version: nat): string {
    if version == 0 then "" else " data-page-version=\"" + Decimal(version) + "\""
  }

  function Opening(domain: Domain, version: nat): string {
    BADGE_OPENING + " data-domain=\"" + Name(domain) + "\"" + VersionAttribute(version) + ">"
  }

  /** `_badge_markup`, with the icons of the domains given. */
  function BadgeMarkup(page: PageMeta, icons: Domain -> string): string {
    var domain := PageDomain(page);
    Opening(domain, page.version) + DomainChip(domain, icons(domain)) + ClassChip(page.knowledge) + GeneratedChip(page.generated)
    + UpdatedChip(page.updated, page.version) + "</p>"
  }

  // ---- the strip is one line ---------------------------------------------------------

  /** One line of markup. */
  predicate OneLine(s: string) { Free(LineBreak, s) }

  lemma {:induction false} Beside(a: string, b: string)
    requires OneLine(a) && OneLine(b)
    ensures OneLine(a + b)
  {
    hide In;
  }

  lemma {:induction false} DecimalLine(n: nat)
    ensures OneLine(Decimal(n))
  {
    DecimalDigits(n);
  }

  lemma {:induction false} PaddedLine(n: nat, width: nat)
    ensures OneLine(Padded(n, width))
  {
    DecimalLine(n);
    if |Decimal(n)| < width {
      ZerosLine(width - |Decimal(n)|);
      Beside(Zeros(width - |Decimal(n)|), Decimal(n));
    }
  }

  lemma {:induction false} ZerosLine(n: nat)
    ensures OneLine(Zeros(n))
  {
    if n > 0 {
      ZerosLine(n - 1);
      assert OneLine("0");
      hide OneLine;
      Beside(Zeros(n - 1), "0");
    }
  }

  lemma {:induction false} Beside3(a: string, b: string, c: string)
    requires OneLine(a) && OneLine(b) && OneLine(c)
    ensures OneLine(a + b + c)
  {
    hide OneLine;
    Beside(a, b);
    Beside(a + b, c);
  }

  lemma {:induction false} Names(domain: Domain)
    ensures OneLine(Name(domain)) && OneLine(Label(domain))
  {}

  lemma {:induction false} RenderedLine(t: Minute)
    ensures OneLine(Rendered(t))
  {
    PaddedLine(t.year, 4);
    PaddedLine(t.month, 2);
    PaddedLine(t.day, 2);
    PaddedLine(t.hour, 2);
    PaddedLine(t.minute, 2);
    assert OneLine("-") && OneLine(" ") && OneLine(":") && OneLine(" UTC");
    hide OneLine, Padded;
    Beside3(Padded(t.year, 4), "-", Padded(t.month, 2));
    var date := Padded(t.year, 4) + "-" + Padded(t.month, 2);
    Beside3(date, "-", Padded(t.day, 2));
    Beside3(date + "-" + Padded(t.day, 2), " ", Padded(t.hour, 2));
    var hour := date + "-" + Padded(t.day, 2) + " " + Padded(t.hour, 2);
    Beside3(hour, ":", Padded(t.minute, 2));
    Beside(hour + ":" + Padded(t.minute, 2), " UTC");
  }

  lemma {:induction false} DomainChipLine(domain: Domain, icon: string)
    requires OneLine(icon)
    ensures OneLine(DomainChip(domain, icon))
  {
    Names(domain);
    var open, more, data := "<span class=\"dp-badge ", "dp-badge--ic\" ", "data-domain=\"";
    assert OneLine(open) && OneLine(more) && OneLine(data) && OneLine("\">") && OneLine("</span>");
    hide OneLine, Name, Label;
    Beside3(open, more, data);
    Beside3(open + more + data, Name(domain), "\">");
    Beside3(open + more + data + Name(domain) + "\">", icon, Label(domain));
    Beside(open + more + data + Name(domain) + "\">" + icon + Label(domain), "</span>");
  }

  /** Names of letters and underscores. */
  predicate Plain(s: string) { forall i :: 0 <= i < |s| ==> Letter(s[i]) || s[i] == '_' }

  lemma {:induction false} StoredPlain(c: KnowledgeClass)
    ensures Plain(StoredName(c))
  {}

  lemma {:induction false} TitledLine(s: string, first: bool)
    requires Plain(s)
    ensures OneLine(Titled(s, first))
  {
    if s != "" {
      TitledLine(s[1..], !Letter(s[0]));
      assert Letter(s[0]) || s[0] == '_';
      var c := if s[0] == '_' then ' ' else if first then Upper(s[0]) else Lower(s[0]);
      assert !In(LineBreak, c);
      assert OneLine([c]);
      hide OneLine, In;
      Beside([c], Titled(s[1..], !Letter(s[0])));
    }
  }

  lemma {:induction false} ClassChipLine(c: Option<KnowledgeClass>)
    ensures OneLine(ClassChip(c))
  {
    if c.Some? {
      var open := "<span class=\"dp-chip\">";
      assert OneLine(open) && OneLine("</span>") && OneLine("");
      StoredPlain(c.value);
      TitledLine(StoredName(c.value), true);
      hide OneLine, StoredName, Titled;
      Beside3(open, ClassLabel(c.value), "</span>");
    }
  }

  lemma {:induction false} GeneratedChipLine(generated: bool)
    ensures OneLine(GeneratedChip(generated))
  {
    var open, more := "<span class=\"dp-chip ", "dp-chip--generated\">";
    assert OneLine(open) && OneLine(more) && OneLine("Generated</span>");
    Beside3(open, more, "Generated</span>");
  }

  lemma {:induction false} UpdatedPieces()
    ensures OneLine("<span class=\"dp-meta\">") && OneLine("Updated ") && OneLine(" \U{00B7} v") && OneLine("") && OneLine("</span>")
  {}

  lemma {:induction false} UpdatedChipLine(updated: Option<Minute>, version: nat)
    ensures OneLine(UpdatedChip(updated, version))
  {
    hide OneLine, Rendered;
    UpdatedPieces();
    if updated.Some? {
      var open, text, dot := "<span class=\"dp-meta\">", Rendered(updated.value), " \U{00B7} v";
      RenderedLine(updated.value);
      DecimalLine(version);
      Beside(dot, Decimal(version));
      Beside3(open, "Updated ", text);
      Beside3(open + "Updated " + text, if version == 0 then "" else dot + Decimal(version), "</span>");
    }
  }

  lemma {:induction false} VersionLine(version: nat)
    ensures OneLine(VersionAttribute(version))
  {
    var open := " data-page-version=\"";
    assert OneLine(open) && OneLine("\"");
    DecimalLine(version);
    Beside3(open, Decimal(version), "\"");
  }

  lemma {:induction false} OpeningLine(domain: Domain, version: nat)
    ensures OneLine(Opening(domain, version)) && StartsWith(Opening(domain, version), BADGE_OPENING)
  {
    Names(domain);
    VersionLine(version);
    var data := " data-domain=\"";
    assert OneLine(BADGE_OPENING) && OneLine(data) && OneLine("\"") && OneLine(">");
    hide OneLine, Name, VersionAttribute;
    Beside3(BADGE_OPENING, data, Name(domain));
    Beside3(BADGE_OPENING + data + Name(domain), "\"", VersionAttribute(version));
    Beside(BADGE_OPENING + data + Name(domain) + "\"" + VersionAttribute(version), ">");
    StartsSame(BADGE_OPENING, Name(domain), VersionAttribute(version));
  }

  /** Whatever the page's metadata, the strip is one line that augmenting recognises as its own. */
  lemma {:induction false} BadgesAreMarkup(page: PageMeta, icons: Domain -> string)
    requires forall domain :: OneLine(icons(domain))
    ensures IsMarkup(BadgeMarkup(page, icons))
  {
    hide OneLine, Opening, DomainChip, ClassChip, GeneratedChip, UpdatedChip, PageDomain, IsMarkup;
    var domain := PageDomain(page);
    OpeningLine(domain, page.version);
    DomainChipLine(domain, icons(domain));
    ClassChipLine(page.knowledge);
    GeneratedChipLine(page.generated);
    UpdatedChipLine(page.updated, page.version);
    ChipsAreMarkup(Opening(domain, page.version), DomainChip(domain, icons(domain)), ClassChip(page.knowledge),
                   GeneratedChip(page.generated), UpdatedChip(page.updated, page.version));
  }

  lemma {:induction false} ChipsAreMarkup(opening: string, a: string, b: string, c: string, d: string)
    requires StartsWith(opening, BADGE_OPENING) && OneLine(opening) && OneLine(a) && OneLine(b) && OneLine(c) && OneLine(d)
    ensures IsMarkup(opening + a + b + c + d + "</p>")
  {
    assert OneLine("</p>");
    hide OneLine, IsMarkup;
    Beside3(opening, a, b);
    Beside3(opening + a + b, c, d);
    Beside(opening + a + b + c + d, "</p>");
    MarkupMeans(opening, opening + a + b + c + d);
  }

  lemma {:induction false} StartsSame(p: string, name: string, version: string)
    ensures StartsWith(p + " data-domain=\"" + name + "\"" + version + ">", p)
  {}

  lemma {:induction false} MarkupMeans(opening: string, all: string)
    requires StartsWith(opening, BADGE_OPENING) && opening <= all && OneLine(all + "</p>")
    ensures IsMarkup(all + "</p>")
  {
    var s, n := all + "</p>", |BADGE_OPENING|;
    assert s[..n] == opening[..n];
    assert s[|s| - 4..] == "</p>";
  }

  /** Augmenting a page anew, after any change of its metadata, starts over from its own text. */
  lemma {:induction false} AugmentPageAgain(content: string, earlier: PageMeta, later: PageMeta, icons: Domain -> string)
    requires forall domain :: OneLine(icons(domain))
    ensures Augmented(Augmented(content, BadgeMarkup(earlier, icons)), BadgeMarkup(later, icons))
            == Augmented(content, BadgeMarkup(later, icons))
  {
    BadgesAreMarkup(earlier, icons);
    BadgesAreMarkup(later, icons);
    AugmentAgain(content, BadgeMarkup(earlier, icons), BadgeMarkup(later, icons));
  }
}
