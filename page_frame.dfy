/**
 * `PageFrame`: the frame around every company page. It reads the current
 * section from the URL, highlights the matching drawer entry, navigates
 * between sections and keeps the drawer, nested-list and theme toggles.
 */
module PageFrame {
  import opened Wrappers
  import Strings
  import JsValues
  import DrawerItems

  /** `location.pathname.split('/')[4]`; `None` stands for `undefined`. */
  function PagePath(pathname: string): (r: Option<string>)
    ensures r.Some? <==> |Strings.Split(pathname, '/')| > 4
    ensures r.Some? ==> r.value == Strings.Split(pathname, '/')[4] && '/' !in r.value
  {
    var segments := Strings.Split(pathname, '/');
    if |segments| > 4 then Some(segments[4]) else None
  }

  /**
   * `isCompanyBasePath` as written: `split('/')[4] === 'companies' &&
   * pagePath === undefined`. It drives the highlight of the Company entry.
   */
  predicate IsCompanyBasePath(pathname: string)
  {
    var segments := Strings.Split(pathname, '/');
    (|segments| > 4 && segments[4] == "companies") && PagePath(pathname).None?
  }

  /** The two conjuncts ask segment 4 to be both present and absent, so the Company entry is never highlighted. */
  lemma IsCompanyBasePathNeverHolds(pathname: string)
    ensures !IsCompanyBasePath(pathname)
  {
  }

  /**
   * The evidently intended test: the URL is `/app/companies/{id}` itself,
   * with `companies` as segment 2 and no section segment after the id.
   */
  predicate AtCompanyBase(pathname: string)
  {
    var segments := Strings.Split(pathname, '/');
    (|segments| > 2 && segments[2] == "companies") && PagePath(pathname).None?
  }

  /** `selected={el.path === pagePath}`. */
  predicate ItemSelected(item: DrawerItems.DrawerItem, pathname: string)
  {
    PagePath(pathname) == Some(item.path)
  }

  /** With the drawer's distinct paths, no URL highlights two entries. */
  lemma AtMostOneItemSelected(pathname: string, i: nat, j: nat)
    requires i < |DrawerItems.DrawerElements| && j < |DrawerItems.DrawerElements|
    ensures ItemSelected(DrawerItems.DrawerElements[i], pathname) && ItemSelected(DrawerItems.DrawerElements[j], pathname) ==> i == j
  {
    DrawerItems.DrawerElementsDistinct();
  }

  /** The target of `handlePageSelection(path)`: `/app/companies/${company.id}/${path}`. */
  function SectionUrl(companyId: JsValues.Value, path: string): string
  {
    "/app/companies/" + JsValues.ToText(companyId) + "/" + path
  }

  /** Parsing the URL that navigation produced gives back the section path. */
  lemma NavigateThenParse(companyId: JsValues.Value, path: string)
    requires JsValues.IsSegment(companyId) && '/' !in path
    ensures PagePath(SectionUrl(companyId, path)) == Some(path)
  {
    SplitSectionUrl(JsValues.ToText(companyId), path);
  }

  lemma SplitSectionUrl(id: string, path: string)
    requires '/' !in id && '/' !in path
    ensures Strings.Split("/app/companies/" + id + "/" + path, '/') == ["", "app", "companies", id, path]
  {
    SplitSectionNested(id, path);
    SectionNested(id, path);
  }

  lemma SplitSectionNested(id: string, path: string)
    requires '/' !in id && '/' !in path
    ensures Strings.Split("" + "/" + ("app" + "/" + ("companies" + "/" + (id + "/" + path))), '/')
         == ["", "app", "companies", id, path]
  {
    Strings.SplitPlain(path, '/');
    Strings.SplitFront(id, '/', path);
    Strings.SplitFront("companies", '/', id + "/" + path);
    Strings.SplitFront("app", '/', "companies" + "/" + (id + "/" + path));
    Strings.SplitFront("", '/', "app" + "/" + ("companies" + "/" + (id + "/" + path)));
  }

  lemma SectionNested(id: string, path: string)
    ensures "/app/companies/" + id + "/" + path == "" + "/" + ("app" + "/" + ("companies" + "/" + (id + "/" + path)))
  {
  }

  /** The Company entry's target: `/app/companies/${company?.id}`. */
  function CompanyUrl(companyId: JsValues.Value): string
  {
    "/app/companies/" + JsValues.ToText(companyId)
  }

  lemma SplitCompanyUrl(id: string)
    requires '/' !in id
    ensures Strings.Split("/app/companies/" + id, '/') == ["", "app", "companies", id]
  {
    SplitCompanyNested(id);
    CompanyNested(id);
  }

  lemma SplitCompanyNested(id: string)
    requires '/' !in id
    ensures Strings.Split("" + "/" + ("app" + "/" + ("companies" + "/" + id)), '/') == ["", "app", "companies", id]
  {
    Strings.SplitPlain(id, '/');
    Strings.SplitFront("companies", '/', id);
    Strings.SplitFront("app", '/', "companies" + "/" + id);
    Strings.SplitFront("", '/', "app" + "/" + ("companies" + "/" + id));
  }

  lemma CompanyNested(id: string)
    ensures "/app/companies/" + id == "" + "/" + ("app" + "/" + ("companies" + "/" + id))
  {
  }

  /**
   * On the company's own page the as-written test fails although the
   * intended one holds, and no drawer entry is highlighted either: nothing
   * in the drawer shows where the user is.
   */
  lemma CompanyUrlHighlightsNothing(companyId: JsValues.Value, i: nat)
    requires JsValues.IsSegment(companyId) && i < |DrawerItems.DrawerElements|
    ensures !IsCompanyBasePath(CompanyUrl(companyId))
    ensures AtCompanyBase(CompanyUrl(companyId))
    ensures !ItemSelected(DrawerItems.DrawerElements[i], CompanyUrl(companyId))
  {
    SplitCompanyUrl(JsValues.ToText(companyId));
  }

  /** The intended test highlights the Company entry at the company's page and at no section page. */
  lemma AtCompanyBaseOnlyAtHome(companyId: JsValues.Value, path: string)
    requires JsValues.IsSegment(companyId) && '/' !in path
    ensures AtCompanyBase(CompanyUrl(companyId))
    ensures !AtCompanyBase(SectionUrl(companyId, path))
  {
    SplitCompanyUrl(JsValues.ToText(companyId));
    NavigateThenParse(companyId, path);
  }

  /** After choosing drawer entry `k`, exactly entry `k` is highlighted. */
  lemma SelectionAfterNavigation(companyId: JsValues.Value, k: nat, j: nat)
    requires JsValues.IsSegment(companyId)
    requires k < |DrawerItems.DrawerElements| && j < |DrawerItems.DrawerElements|
    ensures ItemSelected(DrawerItems.DrawerElements[j], SectionUrl(companyId, DrawerItems.DrawerElements[k].path)) <==> j == k
  {
    DrawerItems.DrawerPathsRouted();
    DrawerItems.DrawerElementsDistinct();
    NavigateThenParse(companyId, DrawerItems.DrawerElements[k].path);
  }

  /** What `handleThemeSwitch` stores under "theme": `{mode, palette}`, as JSON. */
  datatype ThemeRecord = ThemeRecord(mode: string, palette: string)

  /** The mode after a theme switch. */
  function NextMode(mode: string): (r: string)
    ensures r == "dark" <==> mode == "light"
    ensures r == "light" <==> mode != "light"
  {
    if mode == "light" then "dark" else "light"
  }

  /** Switching twice restores the mode exactly when it was 'light' or 'dark'. */
  lemma NextModeTwice(mode: string)
    ensures NextMode(NextMode(mode)) == mode <==> mode == "light" || mode == "dark"
  {
  }

  /** The frame's state: drawer and nested-list toggles, theme, and the router location. */
  class PageFrame {
    var open: bool
    var nestedListToggle: bool
    var mode: string
    const palette: string
    var storedTheme: Option<ThemeRecord>
    var pathname: string
    const companyId: JsValues.Value

    /** The drawer starts open exactly on large screens; the nested list starts expanded. */
    constructor (isLargeScreen: bool, mode: string, palette: string, storedTheme: Option<ThemeRecord>,
                 pathname: string, companyId: JsValues.Value)
      ensures open == isLargeScreen && nestedListToggle
      ensures this.mode == mode && this.palette == palette && this.storedTheme == storedTheme
      ensures this.pathname == pathname && this.companyId == companyId
    {
      open := isLargeScreen;
      nestedListToggle := true;
      this.mode := mode;
      this.palette := palette;
      this.storedTheme := storedTheme;
      this.pathname := pathname;
      this.companyId := companyId;
    }

    /** `handlePageSelection(path)`: navigates to the section and closes the drawer. */
    method HandlePageSelection(path: string)
      modifies this`pathname, this`open
      ensures pathname == SectionUrl(companyId, path) && !open
      ensures JsValues.IsSegment(companyId) && '/' !in path ==> PagePath(pathname) == Some(path)
    {
      pathname := "/app/companies/" + JsValues.ToText(companyId) + "/" + path;
      HandleDrawerClose();
      if JsValues.IsSegment(companyId) && '/' !in path {
        NavigateThenParse(companyId, path);
      }
    }

    /**
     * The Company entry: navigates to the company's page, where no section
     * entry is highlighted and the intended Company-entry test holds.
     */
    method HandleCompanyClick()
      modifies this`pathname
      ensures pathname == CompanyUrl(companyId)
      ensures JsValues.IsSegment(companyId) ==> PagePath(pathname) == None && AtCompanyBase(pathname)
    {
      pathname := "/app/companies/" + JsValues.ToText(companyId);
      if JsValues.IsSegment(companyId) {
        SplitCompanyUrl(JsValues.ToText(companyId));
      }
    }

    /** `handleDrawerToggle()`: toggling twice restores the drawer. */
    method HandleDrawerToggle()
      modifies this`open
      ensures open == !old(open)
    {
      open := !open;
    }

    method HandleDrawerOpen()
      modifies this`open
      ensures open
    {
      open := true;
    }

    method HandleDrawerClose()
      modifies this`open
      ensures !open
    {
      open := false;
    }

    /** `handleThemeSwitch()`: flips the mode and persists it with the unchanged palette. */
    method HandleThemeSwitch()
      modifies this`mode, this`storedTheme
      ensures mode == NextMode(old(mode))
      ensures storedTheme == Some(ThemeRecord(mode, palette))
    {
      if mode == "light" {
        mode := "dark";
        storedTheme := Some(ThemeRecord("dark", palette));
      } else {
        mode := "light";
        storedTheme := Some(ThemeRecord("light", palette));
      }
    }

    /**
     * `handleNestedListToggle()`: with the drawer open it flips the nested
     * list; with the drawer closed it opens the drawer and expands the list.
     */
    method HandleNestedListToggle()
      modifies this`open, this`nestedListToggle
      ensures open
      ensures old(open) ==> nestedListToggle == !old(nestedListToggle)
      ensures !old(open) ==> nestedListToggle
    {
      if open {
        nestedListToggle := !nestedListToggle;
      } else {
        open := true;
        nestedListToggle := true;
      }
    }
  }
}
