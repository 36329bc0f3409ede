/**
  The publications page body (src/components/PublicationContentWrapper.tsx):
  the selected section, kept in step with the URL's `section` parameter, the
  Report submenu's expansion, the breadcrumbs, and the pane's content.

  The section content is a plain object indexed by the URL text, so a key
  the object inherits from `Object.prototype` (such as `toString`) also
  counts as found; the model keeps that behaviour.
 */
module Publication {
  import opened Outcomes

  datatype Section = FinancialReport | AnnualReport | IdicLps | Information | Report {
    /** The section's key in the content table and in URLs. */
    function Key(): string {
      match this
      case FinancialReport => "financial-report"
      case AnnualReport => "annual-report"
      case IdicLps => "idic-lps"
      case Information => "information"
      case Report => "report"
    }

    function Title(): string {
      match this
      case FinancialReport => "Financial Report"
      case AnnualReport => "Annual Report"
      case IdicLps => "IDIC / LPS Information"
      case Information => "General Information"
      case Report => "Reports Overview"
    }
  }

  function SectionOfKey(key: string): (s: Option<Section>)
    ensures s.Some? ==> s.value.Key() == key
  {
    if key == "financial-report" then Some(FinancialReport)
    else if key == "annual-report" then Some(AnnualReport)
    else if key == "idic-lps" then Some(IdicLps)
    else if key == "information" then Some(Information)
    else if key == "report" then Some(Report)
    else None
  }

  /** Every section is found again from its key. */
  lemma SectionKeyRoundTrip(s: Section)
    ensures SectionOfKey(s.Key()) == Some(s)
  {
  }

  /** The properties every plain object inherits from `Object.prototype`. */
  const ObjectPrototypeKeys: set<string> := {
    "constructor", "hasOwnProperty", "isPrototypeOf", "propertyIsEnumerable",
    "toLocaleString", "toString", "valueOf", "__proto__",
    "__defineGetter__", "__defineSetter__", "__lookupGetter__", "__lookupSetter__"}

  /** What `publicationContent[key]` yields: a section's own entry, an inherited (truthy) member, or `undefined`. */
  datatype Entry = Own(section: Section) | Inherited | Missing

  function Lookup(key: string): (e: Entry)
    ensures e.Own? <==> SectionOfKey(key).Some?
    ensures e.Own? ==> e.section.Key() == key
    ensures e.Inherited? <==> SectionOfKey(key).None? && key in ObjectPrototypeKeys
  {
    match SectionOfKey(key)
    case Some(s) => Own(s)
    case None => if key in ObjectPrototypeKeys then Inherited else Missing
  }

  /** A published document: its name, year, link and file kind. */
  datatype Document = Document(name: string, year: string, link: string, kind: string)

  /** The sections that list documents: the financial reports and the annual reports. */
  function Documents(s: Section): (docs: Option<seq<Document>>)
    ensures docs.Some? <==> s == FinancialReport || s == AnnualReport
  {
    match s
    case FinancialReport => Some([
      Document("Q4 2024 Financial Report", "2024", "/reports/financial/q4-2024.pdf", "pdf"),
      Document("Q3 2024 Financial Report", "2024", "/reports/financial/q3-2024.pdf", "pdf"),
      Document("Q2 2024 Financial Report", "2024", "/reports/financial/q2-2024.pdf", "pdf"),
      Document("Q1 2024 Financial Report", "2024", "/reports/financial/q1-2024.pdf", "pdf"),
      Document("Full Year 2023 Financial Statement", "2023", "/reports/financial/fy-2023-statement.pdf", "pdf"),
      Document("Full Year 2023 Financial Overview", "2023", "/reports/financial/fy-2023-overview.xlsx", "excel")])
    case AnnualReport => Some([
      Document("Annual Report 2023", "2023", "/reports/annual/annual-report-2023.pdf", "pdf"),
      Document("Annual Report 2022", "2022", "/reports/annual/annual-report-2022.pdf", "pdf"),
      Document("Annual Report 2021", "2021", "/reports/annual/annual-report-2021.pdf", "pdf")])
    case _ => None
  }

  // ---------------------------------------------------------------------------
  // State and transitions

  /** `activeSection` (the URL text it was taken from) and `isReportExpanded`. */
  datatype PubState = PubState(activeSection: string, isReportExpanded: bool)

  const InitialState := PubState("financial-report", false)

  /** The URL the page replaces a section-less URL with. */
  const DefaultSectionUrl := "/publication?section=financial-report"

  function SectionUrl(key: string): string {
    "/publication?section=" + key
  }

  predicate ForcesExpanded(key: string) {
    key == "financial-report" || key == "annual-report"
  }

  /**
    The URL sync effect: a truthy parameter with a truthy entry becomes the
    active section (and forces the submenu open for the two report kinds,
    never closing it); a missing or empty parameter leaves the state and
    asks for the default URL; any other parameter does nothing.
   */
  function Sync(s: PubState, param: Option<string>): (r: (PubState, Option<string>))
    ensures IsTruthy(param) && !Lookup(param.value).Missing? ==>
      && r.0.activeSection == param.value
      && r.0.isReportExpanded == (s.isReportExpanded || ForcesExpanded(param.value))
      && r.1 == None
    ensures !IsTruthy(param) ==> r == (s, Some(DefaultSectionUrl))
    ensures IsTruthy(param) && Lookup(param.value).Missing? ==> r == (s, None)
  {
    if param.Some? && param.value != "" && !Lookup(param.value).Missing? then
      (PubState(param.value, if ForcesExpanded(param.value) then true else s.isReportExpanded), None)
    else if param.None? || param.value == "" then
      (s, Some(DefaultSectionUrl))
    else
      (s, None)
  }

  /**
    `handleSectionClick`: the section becomes active and its URL is pushed;
    Report toggles the submenu, the two report kinds open it, the others close it.
   */
  function Click(s: PubState, section: Section): (r: (PubState, string))
    ensures r.0.activeSection == section.Key() && r.1 == SectionUrl(section.Key())
    ensures section == Report ==> r.0.isReportExpanded == !s.isReportExpanded
    ensures section == FinancialReport || section == AnnualReport ==> r.0.isReportExpanded
    ensures section == IdicLps || section == Information ==> !r.0.isReportExpanded
  {
    var expanded :=
      if section == Report then !s.isReportExpanded
      else if section == FinancialReport || section == AnnualReport then true
      else false;
    (PubState(section.Key(), expanded), SectionUrl(section.Key()))
  }

  /** The URL sync never collapses the submenu. */
  lemma SyncNeverCollapses(s: PubState, param: Option<string>)
    requires s.isReportExpanded
    ensures Sync(s, param).0.isReportExpanded
  {
  }

  /** When the URL catches up with a click, the sync effect leaves the clicked state as it is. */
  lemma ClickThenSyncKeeps(s: PubState, section: Section)
    ensures var c := Click(s, section).0;
      Sync(c, Some(section.Key())) == (c, None)
  {
  }

  /** Two clicks on Report leave the submenu as it was. */
  lemma ReportClickTwiceRestores(s: PubState)
    ensures Click(Click(s, Report).0, Report).0.isReportExpanded == s.isReportExpanded
  {
  }

  /** The active section always has a truthy entry: true initially and kept by every transition. */
  predicate HasEntry(s: PubState) {
    !Lookup(s.activeSection).Missing?
  }

  lemma TransitionsKeepEntry(s: PubState, param: Option<string>, section: Section)
    requires HasEntry(s)
    ensures HasEntry(InitialState)
    ensures HasEntry(Sync(s, param).0)
    ensures HasEntry(Click(s, section).0)
  {
    SectionKeyRoundTrip(section);
  }

  // ---------------------------------------------------------------------------
  // Rendering

  /** A breadcrumb; an inherited entry has no `title`, so its crumb has no caption. */
  datatype Crumb = Crumb(caption: Option<string>, href: string)

  function EntryTitle(e: Entry): Option<string> {
    match e
    case Own(section) => Some(section.Title())
    case _ => None
  }

  /** HOME and Publication always; the section's crumb unless the section is Report or has no entry. */
  function Breadcrumbs(activeSection: string): (crumbs: seq<Crumb>)
    ensures |crumbs| >= 2
    ensures crumbs[0] == Crumb(Some("HOME"), "/") && crumbs[1] == Crumb(Some("Publication"), "/publication")
    ensures |crumbs| == 3 <==> activeSection != "report" && !Lookup(activeSection).Missing?
    ensures |crumbs| == 3 ==> crumbs[2] == Crumb(EntryTitle(Lookup(activeSection)), SectionUrl(activeSection))
    ensures |crumbs| <= 3
  {
    [Crumb(Some("HOME"), "/"), Crumb(Some("Publication"), "/publication")]
      + (if activeSection != "report" && !Lookup(activeSection).Missing?
         then [Crumb(EntryTitle(Lookup(activeSection)), SectionUrl(activeSection))]
         else [])
  }

  /** The Report button is highlighted for Report and for both report kinds. */
  predicate ReportHighlighted(activeSection: string)
    ensures ReportHighlighted(activeSection) <==>
      Lookup(activeSection).Own? && Lookup(activeSection).section in {Report, FinancialReport, AnnualReport}
  {
    activeSection == "report" || activeSection == "financial-report" || activeSection == "annual-report"
  }

  /**
    After a click the Report button is highlighted exactly for Report and
    the two report kinds; a report kind is then shown inside the open
    submenu.
   */
  lemma ClickHighlightsReportGroup(s: PubState, section: Section)
    ensures ReportHighlighted(Click(s, section).0.activeSection) <==> section in {Report, FinancialReport, AnnualReport}
    ensures ReportHighlighted(Click(s, section).0.activeSection) && section != Report ==> Click(s, section).0.isReportExpanded
  {
    SectionKeyRoundTrip(section);
  }

  /** The heading: the entry's title, or the fallback when it has none. */
  function Heading(activeSection: string): (h: string)
    ensures Lookup(activeSection).Own? ==> h == Lookup(activeSection).section.Title()
    ensures !Lookup(activeSection).Own? ==> h == "Select a Publication"
  {
    match Lookup(activeSection)
    case Own(section) => section.Title()
    case _ => "Select a Publication"
  }

  /** The pane: the document cards when the entry lists documents, else the entry's content (none for a non-section). */
  datatype Pane = DocumentList(docs: seq<Document>) | ContentOf(section: Option<Section>)

  function PaneOf(activeSection: string): (p: Pane)
    ensures p.DocumentList? <==> Lookup(activeSection).Own? && Documents(Lookup(activeSection).section).Some?
    ensures p.DocumentList? ==> p.docs == Documents(Lookup(activeSection).section).value
    ensures p.ContentOf? && Lookup(activeSection).Own? ==> p.section == Some(Lookup(activeSection).section)
    ensures p.ContentOf? && !Lookup(activeSection).Own? ==> p.section == None
  {
    match Lookup(activeSection)
    case Own(section) =>
      (match Documents(section)
       case Some(docs) => DocumentList(docs)
       case None => ContentOf(Some(section)))
    case _ => ContentOf(None)
  }

  /** Every proper section shows its title, and a crumb with that title unless it is Report. */
  lemma SectionRendering(s: Section)
    ensures Heading(s.Key()) == s.Title()
    ensures s != Report ==> Breadcrumbs(s.Key())[2] == Crumb(Some(s.Title()), SectionUrl(s.Key()))
    ensures s == Report ==> |Breadcrumbs(s.Key())| == 2
  {
    SectionKeyRoundTrip(s);
  }

  /**
    `?section=toString` is accepted: it becomes the active section, the
    heading falls back, the pane is empty and the third crumb has no caption.
   */
  lemma InheritedKeyAccepted(s: PubState)
    ensures var r := Sync(s, Some("toString")).0;
      && r.activeSection == "toString"
      && Heading(r.activeSection) == "Select a Publication"
      && PaneOf(r.activeSection) == ContentOf(None)
      && Breadcrumbs(r.activeSection)[2] == Crumb(None, "/publication?section=toString")
  {
    assert Lookup("toString") == Inherited;
  }

  class PublicationContent {
    var activeSection: string
    var isReportExpanded: bool

    constructor()
      ensures PubState(activeSection, isReportExpanded) == InitialState
    {
      activeSection := "financial-report";
      isReportExpanded := false;
    }

    /** The URL sync effect, given the URL's `section` parameter; returns the URL to replace the current one with, if any. */
    method SyncWithUrl(param: Option<string>) returns (replaceUrl: Option<string>)
      modifies this
      ensures (PubState(activeSection, isReportExpanded), replaceUrl) == Sync(old(PubState(activeSection, isReportExpanded)), param)
    {
      var r := Sync(PubState(activeSection, isReportExpanded), param);
      activeSection, isReportExpanded := r.0.activeSection, r.0.isReportExpanded;
      replaceUrl := r.1;
    }

    /** A sidebar button; returns the URL pushed. */
    method HandleSectionClick(section: Section) returns (pushUrl: string)
      modifies this
      ensures (PubState(activeSection, isReportExpanded), pushUrl) == Click(old(PubState(activeSection, isReportExpanded)), section)
    {
      var r := Click(PubState(activeSection, isReportExpanded), section);
      activeSection, isReportExpanded := r.0.activeSection, r.0.isReportExpanded;
      pushUrl := r.1;
    }
  }
}
