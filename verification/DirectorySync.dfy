/**
 * Reconciling the directory with the roster central returned: `writeUsers`
 * writes what differs and drops what is no longer listed. Proved: what the
 * directory holds afterwards, that `changed` is false exactly when nothing had
 * to be done, and exactly when a second run finds nothing to do.
 */
module DirectorySync {
  import opened Common
  import opened EdgeDirectory

  type Files = map<string, string>

  /** A file the roster asks for. */
  datatype Page = Page(name: string, text: string)

  predicate AllDigits(s: string) {
    forall i :: 0 <= i < |s| ==> '0' <= s[i] <= '9'
  }

  /** Two to eight digits. */
  predicate ValidExtension(extension: string) {
    2 <= |extension| <= 8 && AllDigits(extension)
  }

  function FileName(extension: string): string {
    extension + ".xml"
  }

  predicate IsXml(name: string) {
    |name| >= 4 && name[|name| - 4..] == ".xml"
  }

  function PageOf(e: Extension): Page {
    Page(FileName(e.extension), UserXml(e))
  }

  /** The pages of the valid entries, in roster order. */
  function Pages(roster: seq<Extension>): seq<Page> {
    if roster == [] then []
    else
      var e := roster[|roster| - 1];
      Pages(roster[..|roster| - 1]) +
      (if ValidExtension(e.extension) then [PageOf(e)] else [])
  }

  /** The text of a file; a missing file reads as empty. */
  function TextOf(files: Files, name: string): string {
    if name in files then files[name] else ""
  }

  /** How far the writing loop has come; `failed` when a write was refused. */
  datatype Progress = Progress(files: Files, changed: bool, failed: bool)

  /** One page; files named in `readonly` cannot be written. */
  function PageWritten(p: Progress, page: Page, readonly: set<string>): Progress {
    if p.failed || TextOf(p.files, page.name) == page.text then p
    else if page.name in readonly then p.(failed := true)
    else Progress(p.files[page.name := page.text], true, false)
  }

  function Written(files: Files, pages: seq<Page>, readonly: set<string>): Progress {
    if pages == [] then Progress(files, false, false)
    else PageWritten(Written(files, pages[..|pages| - 1], readonly), pages[|pages| - 1], readonly)
  }

  function Names(pages: seq<Page>): set<string> {
    set page | page in pages :: page.name
  }

  /** A user's file that the roster does not ask for. */
  predicate Unlisted(name: string, names: set<string>) {
    IsXml(name) && name !in names
  }

  predicate AnyUnlisted(files: Files, names: set<string>) {
    exists name :: name in files && Unlisted(name, names)
  }

  /** What is left after the removals; files named in `stuck` cannot be removed. */
  function Kept(files: Files, names: set<string>, stuck: set<string>): Files {
    map name | name in files && (Unlisted(name, names) ==> name in stuck) :: files[name]
  }

  /** A removal counts as a change whether or not it succeeds. */
  function Reconciled(files: Files, roster: seq<Extension>, readonly: set<string>, stuck: set<string>): Progress {
    var p := Written(files, Pages(roster), readonly);
    if p.failed || roster == [] then p
    else
      var names := Names(Pages(roster));
      Progress(Kept(p.files, names, stuck), p.changed || AnyUnlisted(p.files, names), false)
  }

  /** The valid entries of the roster, rendered. */
  method ListedPages(roster: seq<Extension>) returns (pages: seq<Page>)
    ensures pages == Pages(roster)
  {
    pages := [];
    for i := 0 to |roster|
      invariant pages == Pages(roster[..i])
    {
      var e := roster[i];
      assert roster[..i + 1][..i] == roster[..i];
      if ValidExtension(e.extension) {
        pages := pages + [Page(e.extension + ".xml", UserXml(e))];
      }
    }
    assert roster[..|roster|] == roster;
  }

  /** After a refused write the loop does nothing more. */
  lemma {:induction false} WriteFailed(files: Files, pages: seq<Page>, more: seq<Page>, readonly: set<string>)
    requires Written(files, pages, readonly).failed
    ensures Written(files, pages + more, readonly) == Written(files, pages, readonly)
  {
    if more == [] {
      assert pages + more == pages;
    } else {
      WriteFailed(files, pages, more[..|more| - 1], readonly);
      assert (pages + more)[..|pages + more| - 1] == pages + more[..|more| - 1];
    }
  }

  class Directory {
    var files: Files

    constructor ()
      ensures files == map[]
    {
      files := map[];
    }

    method WriteUsers(roster: seq<Extension>, readonly: set<string>, stuck: set<string>)
      returns (changed: bool, failed: bool)
      modifies this
      ensures Progress(files, changed, failed) == Reconciled(old(files), roster, readonly, stuck)
    {
      var pages := ListedPages(roster);
      changed, failed := WritePages(pages, readonly);
      if failed {
        return;
      }
      if |roster| > 0 {
        var dropped := DropUnlisted(Names(pages), stuck);
        changed := changed || dropped;
      }
    }

    method WritePages(pages: seq<Page>, readonly: set<string>) returns (changed: bool, failed: bool)
      modifies this
      ensures Progress(files, changed, failed) == Written(old(files), pages, readonly)
    {
      changed, failed := false, false;
      for i := 0 to |pages|
        invariant Progress(files, changed, failed) == Written(old(files), pages[..i], readonly) && !failed
      {
        var page := pages[i];
        assert pages[..i + 1][..i] == pages[..i];
        if TextOf(files, page.name) != page.text {
          if page.name in readonly {
            failed := true;
            assert pages == pages[..i + 1] + pages[i + 1..];
            WriteFailed(old(files), pages[..i + 1], pages[i + 1..], readonly);
            return;
          }
          files := files[page.name := page.text];
          changed := true;
        }
      }
      assert pages[..|pages|] == pages;
    }

    method DropUnlisted(valid: set<string>, stuck: set<string>) returns (changed: bool)
      modifies this
      ensures files == Kept(old(files), valid, stuck)
      ensures changed <==> AnyUnlisted(old(files), valid)
    {
      changed := false;
      var entries := files.Keys;
      while entries != {}
        invariant entries <= old(files).Keys
        invariant files == map name | name in old(files) && (name in entries || (Unlisted(name, valid) ==> name in stuck)) :: old(files)[name]
        invariant changed <==> exists name :: name in old(files) && name !in entries && Unlisted(name, valid)
        decreases entries
      {
        var name :| name in entries;
        entries := entries - {name};
        if IsXml(name) && name !in valid {
          if name !in stuck {
            files := files - {name};
          }
          changed := true;
        }
      }
    }
  }

  lemma PagesGrow(pages: seq<Page>, page: Page, files: Files, readonly: set<string>)
    ensures Written(files, pages + [page], readonly) == PageWritten(Written(files, pages, readonly), page, readonly)
    ensures Names(pages + [page]) == Names(pages) + {page.name}
  {
    assert (pages + [page])[..|pages|] == pages;
    var more := Names(pages + [page]);
    forall name ensures name in more <==> name in Names(pages) + {page.name} {
      if name in Names(pages) {
        var p :| p in pages && p.name == name;
        assert p in pages + [page];
      }
      assert page in pages + [page];
    }
  }

  // ----- what the directory holds -----

  /** What the pages ask for: for each name the text of its last page. */
  ghost function Wanted(pages: seq<Page>): Files {
    if pages == [] then map[]
    else Wanted(pages[..|pages| - 1])[pages[|pages| - 1].name := pages[|pages| - 1].text]
  }

  /** Every page is a non-empty `.xml` file. */
  ghost predicate Proper(pages: seq<Page>) {
    forall i :: 0 <= i < |pages| ==> IsXml(pages[i].name) && pages[i].text != ""
  }

  /** The page is already in the directory. */
  ghost predicate InPlace(files: Files, page: Page) {
    page.name in files && files[page.name] == page.text
  }

  /** Writing overlays the wanted files on what was there, and reports no change only if all were there already. */
  lemma {:induction false} WrittenIsOverlay(files: Files, pages: seq<Page>)
    requires Proper(pages)
    ensures var p := Written(files, pages, {});
      && !p.failed
      && p.files == files + Wanted(pages)
      && (!p.changed <==> forall i :: 0 <= i < |pages| ==> InPlace(files, pages[i]))
      && (!p.changed ==> p.files == files)
  {
    if pages != [] {
      WrittenIsOverlay(files, pages[..|pages| - 1]);
    }
  }

  lemma {:induction false} WantedNames(pages: seq<Page>)
    ensures Wanted(pages).Keys == Names(pages)
  {
    if pages != [] {
      var init, page := pages[..|pages| - 1], pages[|pages| - 1];
      WantedNames(init);
      PagesGrow(init, page, map[], {});
      assert init + [page] == pages;
    }
  }

  lemma XmlNotEmpty(e: Extension)
    ensures UserXml(e) != "" && IsXml(FileName(e.extension))
  {
    assert |USER_TEMPLATE[0]| > 0;
  }

  lemma {:induction false} PagesAreProper(roster: seq<Extension>)
    ensures Proper(Pages(roster))
  {
    if roster != [] {
      PagesAreProper(roster[..|roster| - 1]);
      XmlNotEmpty(roster[|roster| - 1]);
    }
  }

  /**
   * Convergence: for a non-empty roster the directory ends up with exactly the
   * wanted `.xml` files, those that could not be removed, and every other file
   * as it was; an empty roster changes nothing.
   */
  lemma DirectoryConverges(files: Files, roster: seq<Extension>, stuck: set<string>)
    ensures roster == [] ==> Reconciled(files, roster, {}, stuck) == Progress(files, false, false)
    ensures roster != [] ==>
      var after, wanted := Reconciled(files, roster, {}, stuck).files, Wanted(Pages(roster));
      && (forall name :: IsXml(name) ==> (name in after <==> name in wanted || (name in files && name in stuck)))
      && (forall name :: name in wanted ==> name in after && after[name] == wanted[name])
      && (forall name :: IsXml(name) && name in after && name !in wanted ==> name in files && after[name] == files[name])
      && (forall name :: !IsXml(name) ==> (name in after <==> name in files))
      && (forall name :: !IsXml(name) && name in after ==> after[name] == files[name])
  {
    var pages := Pages(roster);
    PagesAreProper(roster);
    WrittenIsOverlay(files, pages);
    WantedNames(pages);
    forall name | name in Names(pages) ensures IsXml(name) {
      var page :| page in pages && page.name == name;
    }
  }

  /** No two pages of one name have different texts. */
  ghost predicate Consistent(pages: seq<Page>) {
    forall i, j :: 0 <= i < |pages| && 0 <= j < |pages| && pages[i].name == pages[j].name ==> pages[i].text == pages[j].text
  }

  /** The wanted text of a name is that of one of its pages. */
  lemma {:induction false} WantedFrom(pages: seq<Page>, k: nat) returns (i: nat)
    requires k < |pages|
    ensures k <= i < |pages| && pages[i].name == pages[k].name
    ensures InPlace(Wanted(pages), pages[i])
  {
    var n := |pages| - 1;
    if pages[n].name == pages[k].name {
      i := n;
    } else {
      i := WantedFrom(pages[..n], k);
    }
  }

  /** The pages are all in place after they were written if and only if they are consistent. */
  lemma AllInPlaceIff(pages: seq<Page>)
    ensures (forall k :: 0 <= k < |pages| ==> InPlace(Wanted(pages), pages[k])) <==> Consistent(pages)
  {
    forall k | 0 <= k < |pages|
      ensures pages[k].name in Wanted(pages)
      ensures Consistent(pages) ==> InPlace(Wanted(pages), pages[k])
    {
      var i := WantedFrom(pages, k);
    }
  }

  /** Reconciling reports no change exactly when every page is in place and nothing is to be dropped. */
  lemma NoChangeIff(files: Files, roster: seq<Extension>, stuck: set<string>)
    requires roster != []
    ensures !Reconciled(files, roster, {}, stuck).changed <==>
      && (forall i :: 0 <= i < |Pages(roster)| ==> InPlace(files, Pages(roster)[i]))
      && !AnyUnlisted(files, Names(Pages(roster)))
  {
    PagesAreProper(roster);
    WrittenIsOverlay(files, Pages(roster));
  }

  /**
   * A second run reports no change if and only if the roster does not ask for
   * two different texts of one extension (with distinct extensions it never
   * does) and no unlisted file resisted its removal.
   */
  lemma SecondRunIsQuietIff(files: Files, roster: seq<Extension>, stuck: set<string>, later: set<string>)
    requires roster != []
    ensures !Reconciled(Reconciled(files, roster, {}, stuck).files, roster, {}, later).changed <==>
      && Consistent(Pages(roster))
      && forall name :: name in files && Unlisted(name, Names(Pages(roster))) ==> name !in stuck
  {
    var pages := Pages(roster);
    var after := Reconciled(files, roster, {}, stuck).files;
    NoChangeIff(after, roster, later);
    DirectoryConverges(files, roster, stuck);
    PagesAreProper(roster);
    WantedNames(pages);
    forall i | 0 <= i < |pages| ensures InPlace(after, pages[i]) <==> InPlace(Wanted(pages), pages[i]) {
      assert IsXml(pages[i].name);
    }
    AllInPlaceIff(pages);
  }

  lemma SameName(a: string, b: string)
    requires FileName(a) == FileName(b)
    ensures a == b
  {
    assert a == FileName(a)[..|a|] && b == FileName(b)[..|b|];
  }

  /** Every page belongs to a roster entry, and distinct extensions have distinct pages. */
  lemma {:induction false} DistinctIsConsistent(roster: seq<Extension>)
    requires forall i, j :: 0 <= i < j < |roster| ==> roster[i].extension != roster[j].extension
    ensures forall p :: p in Pages(roster) ==> exists k :: 0 <= k < |roster| && p.name == FileName(roster[k].extension)
    ensures Consistent(Pages(roster))
  {
    if roster != [] {
      var init, e := roster[..|roster| - 1], roster[|roster| - 1];
      DistinctIsConsistent(init);
      forall p | p in Pages(init) ensures p.name != FileName(e.extension) {
        var k :| 0 <= k < |init| && p.name == FileName(init[k].extension);
        if p.name == FileName(e.extension) {
          SameName(init[k].extension, e.extension);
        }
      }
      forall p | p in Pages(roster) ensures exists k :: 0 <= k < |roster| && p.name == FileName(roster[k].extension) {
        if p in Pages(init) {
          var k :| 0 <= k < |init| && p.name == FileName(init[k].extension);
          assert p.name == FileName(roster[k].extension);
        } else {
          assert p.name == FileName(roster[|roster| - 1].extension);
        }
      }
    }
  }

  // ----- refused writes -----

  lemma {:induction false} NothingRefused(files: Files, pages: seq<Page>, readonly: set<string>)
    requires forall i :: 0 <= i < |pages| ==> pages[i].name !in readonly
    ensures Written(files, pages, readonly) == Written(files, pages, {})
  {
    if pages != [] {
      NothingRefused(files, pages[..|pages| - 1], readonly);
    }
  }

  lemma RefusedPage(p: Progress, page: Page, readonly: set<string>)
    requires !p.failed && page.name in readonly && page.text != "" && !InPlace(p.files, page)
    ensures PageWritten(p, page, readonly) == p.(failed := true)
  {
  }

  lemma RefusedAt(files: Files, all: seq<Page>, readonly: set<string>, k: nat)
    requires Proper(all) && k < |all| && forall i :: 0 <= i < k ==> all[i].name !in readonly
    requires all[k].name in readonly && !InPlace(files + Wanted(all[..k]), all[k])
    ensures var result := Written(files, all, readonly);
      && result.failed && result.files == files + Wanted(all[..k])
      && (!result.changed <==> forall i :: 0 <= i < k ==> InPlace(files, all[..k][i]))
  {
    var pages := all[..k];
    NothingRefused(files, pages, readonly);
    WrittenIsOverlay(files, pages);
    PagesGrow(pages, all[k], files, readonly);
    RefusedPage(Written(files, pages, readonly), all[k], readonly);
    assert all == (pages + [all[k]]) + all[k + 1..];
    WriteFailed(files, pages + [all[k]], all[k + 1..], readonly);
  }

  /**
   * The first write that is refused ends the run: the pages before it are
   * written, nothing after it is, nothing is removed, and the failure is reported
   * together with whether those pages changed anything.
   */
  lemma RefusedWriteStops(files: Files, roster: seq<Extension>, readonly: set<string>, stuck: set<string>, k: nat)
    requires k < |Pages(roster)|
    requires forall i :: 0 <= i < k ==> Pages(roster)[i].name !in readonly
    requires var page := Pages(roster)[k];
      page.name in readonly && !InPlace(files + Wanted(Pages(roster)[..k]), page)
    ensures var pages := Pages(roster)[..k];
      var result := Reconciled(files, roster, readonly, stuck);
      && result.failed && result.files == files + Wanted(pages)
      && (!result.changed <==> forall i :: 0 <= i < |pages| ==> InPlace(files, pages[i]))
  {
    PagesAreProper(roster);
    RefusedAt(files, Pages(roster), readonly, k);
  }

  // ----- the directory in terms of the roster -----

  /** A user that gets a file: two to eight decimal digits. */
  ghost predicate Served(e: Extension) {
    2 <= |e.extension| <= 8 && forall i :: 0 <= i < |e.extension| ==> e.extension[i] in "0123456789"
  }

  lemma TenDigits(c: char)
    ensures '0' <= c <= '9' <==> c in "0123456789"
  {
    var ten := "0123456789";
    if '0' <= c <= '9' {
      assert ten[c as int - '0' as int] == c;
    }
  }

  lemma ServedIsValid(e: Extension)
    ensures Served(e) <==> ValidExtension(e.extension)
  {
    forall i | 0 <= i < |e.extension|
      ensures e.extension[i] in "0123456789" <==> '0' <= e.extension[i] <= '9'
    {
      TenDigits(e.extension[i]);
    }
  }

  lemma PagesLast(roster: seq<Extension>, page: Page)
    requires roster != []
    ensures var init, e := roster[..|roster| - 1], roster[|roster| - 1];
      page in Pages(roster) <==> page in Pages(init) || (Served(e) && page == PageOf(e))
  {
    ServedIsValid(roster[|roster| - 1]);
  }

  /** Every served user has its page. */
  lemma {:induction false} ServedUserHasPage(roster: seq<Extension>, i: nat)
    requires i < |roster| && Served(roster[i])
    ensures PageOf(roster[i]) in Pages(roster)
  {
    PagesLast(roster, PageOf(roster[i]));
    if i < |roster| - 1 {
      ServedUserHasPage(roster[..|roster| - 1], i);
    }
  }

  /** Every page is that of a served user. */
  lemma {:induction false} PageHasUser(roster: seq<Extension>, page: Page) returns (i: nat)
    requires page in Pages(roster)
    ensures i < |roster| && Served(roster[i]) && page == PageOf(roster[i])
  {
    var n := |roster| - 1;
    PagesLast(roster, page);
    if page in Pages(roster[..n]) {
      i := PageHasUser(roster[..n], page);
    } else {
      i := n;
    }
  }

  ghost predicate DistinctExtensions(roster: seq<Extension>) {
    forall i, j :: 0 <= i < j < |roster| ==> roster[i].extension != roster[j].extension
  }

  /** After reconciling, every served user has its file with its text. */
  lemma ServedUserHasFile(files: Files, roster: seq<Extension>, stuck: set<string>, i: nat)
    requires DistinctExtensions(roster) && i < |roster| && Served(roster[i])
    ensures var after := Reconciled(files, roster, {}, stuck).files;
      var name := roster[i].extension + ".xml";
      name in after && after[name] == UserXml(roster[i])
  {
    var pages := Pages(roster);
    ServedUserHasPage(roster, i);
    var k :| 0 <= k < |pages| && pages[k] == PageOf(roster[i]);
    DistinctIsConsistent(roster);
    var j := WantedFrom(pages, k);
    DirectoryConverges(files, roster, stuck);
  }

  /** And no other `.xml` file is there, but for unlisted ones that were there and could not be removed. */
  lemma OtherFilesGone(files: Files, roster: seq<Extension>, stuck: set<string>, stem: string)
    requires roster != [] && stem + ".xml" in Reconciled(files, roster, {}, stuck).files
    ensures (exists i :: 0 <= i < |roster| && Served(roster[i]) && roster[i].extension == stem)
      || (stem + ".xml" in files && stem + ".xml" in stuck)
  {
    var name := stem + ".xml";
    var pages := Pages(roster);
    assert name[|name| - 4..] == ".xml";
    DirectoryConverges(files, roster, stuck);
    WantedNames(pages);
    if name in Wanted(pages) {
      var page :| page in pages && page.name == name;
      var i := PageHasUser(roster, page);
      SameName(stem, roster[i].extension);
    }
  }
}
