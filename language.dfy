/** The translation lookup of client/src/contexts/LanguageContext.jsx over the
    message catalogue of client/src/i18n/translations.js. A key is a dot-separated
    path into the catalogue of the current language; a path that leads nowhere,
    or to an empty text, yields the key itself. Browser storage and the page's
    `lang` attribute are fields of the provider. */
module Language {
  import opened Common

  /** A catalogue entry: a text, or an object of named entries. */
  datatype Tree = Leaf(text: string) | Node(children: seq<(string, Tree)>)

  const EnApp: Tree := Node([
    ("name", Leaf("Shopping List")),
    ("description", Leaf("Simple and efficient shopping list application"))])

  const EnAuth: Tree := Node([
    ("loggedInAs", Leaf("Logged in as")),
    ("logout", Leaf("Logout"))])

  const EnShops: Tree := Node([
    ("title", Leaf("Shops")),
    ("add", Leaf("Add")),
    ("new", Leaf("New shop...")),
    ("edit", Leaf("Edit shop")),
    ("delete", Leaf("Delete shop")),
    ("empty", Leaf("No shops yet")),
    ("cancelSelection", Leaf("Cancel selection"))])

  const EnFamily: Tree := Node([
    ("manage", Leaf("Manage Family"))])

  const EnPwa: Tree := Node([
    ("offlineReady", Leaf("App is ready for offline use")),
    ("updateAvailable", Leaf("New version available")),
    ("update", Leaf("Update")),
    ("close", Leaf("Close"))])

  const EnNotifications: Tree := Node([
    ("prompt", Leaf("Would you like to receive notifications when shopping lists are updated?")),
    ("allow", Leaf("Allow notifications")),
    ("itemAdded", Leaf("{user} added {item} to {shop}")),
    ("itemCompleted", Leaf("{user} completed {item} in {shop}")),
    ("itemUncompleted", Leaf("{user} uncompleted {item} in {shop}")),
    ("itemDeleted", Leaf("{user} removed {item} from {shop}"))])

  /** The English catalogue, client/src/i18n/translations.js:2-37. */
  const En: Tree := Node([
    ("app", EnApp),
    ("auth", EnAuth),
    ("shops", EnShops),
    ("family", EnFamily),
    ("pwa", EnPwa),
    ("notifications", EnNotifications)])

  const CsApp: Tree := Node([
    ("name", Leaf("N\U{00E1}kupn\U{00ED} seznam")),
    ("description", Leaf("Aplikace pro spr\U{00E1}vu n\U{00E1}kupn\U{00ED}ch seznam\U{016F}"))])

  const CsAuth: Tree := Node([
    ("loggedInAs", Leaf("P\U{0159}ihl\U{00E1}\U{0161}en\U{00FD} u\U{017E}ivatel")),
    ("logout", Leaf("Odhl\U{00E1}sit se"))])

  const CsShops: Tree := Node([
    ("title", Leaf("Obchody")),
    ("add", Leaf("P\U{0159}idat")),
    ("new", Leaf("Nov\U{00FD} obchod...")),
    ("edit", Leaf("Upravit obchod")),
    ("delete", Leaf("Smazat obchod")),
    ("empty", Leaf("Zat\U{00ED}m nem\U{00E1}te \U{017E}\U{00E1}dn\U{00E9} obchody")),
    ("cancelSelection", Leaf("Zru\U{0161}it v\U{00FD}b\U{011B}r"))])

  const CsFamily: Tree := Node([
    ("manage", Leaf("Spr\U{00E1}va rodin"))])

  const CsPwa: Tree := Node([
    ("offlineReady", Leaf("Aplikace je p\U{0159}ipravena pro offline pou\U{017E}it\U{00ED}")),
    ("updateAvailable", Leaf("Je k dispozici nov\U{00E1} verze aplikace")),
    ("update", Leaf("Aktualizovat")),
    ("close", Leaf("Zav\U{0159}\U{00ED}t"))])

  const CsNotifications: Tree := Node([
    ("prompt", Leaf("Chcete dost\U{00E1}vat upozorn\U{011B}n\U{00ED} na zm\U{011B}ny v n\U{00E1}kupn\U{00ED}m seznamu?")),
    ("allow", Leaf("Povolit notifikace")),
    ("itemAdded", Leaf("{user} p\U{0159}idal(a) {item} do {shop}")),
    ("itemCompleted", Leaf("{user} ozna\U{010D}il(a) {item} jako koupen\U{00E9} v {shop}")),
    ("itemUncompleted", Leaf("{user} ozna\U{010D}il(a) {item} jako nekoupen\U{00E9} v {shop}")),
    ("itemDeleted", Leaf("{user} odebral(a) {item} z {shop}"))])

  /** The Czech catalogue, client/src/i18n/translations.js:38-73. */
  const Cs: Tree := Node([
    ("app", CsApp),
    ("auth", CsAuth),
    ("shops", CsShops),
    ("family", CsFamily),
    ("pwa", CsPwa),
    ("notifications", CsNotifications)])

  const DefaultLanguage: string := "en"

  /** `translations[language]` */
  function Catalogue(lang: string): (r: Option<Tree>)
    ensures r.Some? <==> lang == "en" || lang == "cs"
  {
    if lang == "en" then Some(En) else if lang == "cs" then Some(Cs) else None
  }

  /** `key.split('.')`: the pieces between dots, empty ones included. */
  function Split(s: string): (r: seq<string>)
    ensures |r| >= 1
    ensures forall i :: 0 <= i < |r| ==> '.' !in r[i]
  {
    if |s| == 0 then [""]
    else if s[0] == '.' then [""] + Split(s[1..])
    else
      var rest := Split(s[1..]);
      [[s[0]] + rest[0]] + rest[1..]
  }

  /** `parts.join('.')` */
  function Join(parts: seq<string>): string
    requires |parts| >= 1
  {
    if |parts| == 1 then parts[0] else parts[0] + "." + Join(parts[1..])
  }

  /** Splitting loses nothing: joining the pieces gives the key back. */
  lemma {:induction false} JoinSplit(s: string)
    ensures Join(Split(s)) == s
  {
    if |s| == 0 {
    } else if s[0] == '.' {
      JoinSplit(s[1..]);
      assert Split(s)[1..] == Split(s[1..]);
    } else {
      var rest := Split(s[1..]);
      JoinSplit(s[1..]);
      var r := Split(s);
      assert r[0] == [s[0]] + rest[0] && r[1..] == rest[1..];
      if |rest| == 1 {
      } else {
        assert Join(rest) == rest[0] + "." + Join(rest[1..]);
        assert Join(r) == r[0] + "." + Join(r[1..]);
      }
      assert s == [s[0]] + s[1..];
    }
  }

  /** `value?.[k]`: the entry named `k` of an object; nothing for a text or
      for nothing at all. */
  function Child(v: Option<Tree>, k: string): (r: Option<Tree>)
    ensures v.None? || v.value.Leaf? ==> r.None?
    ensures r.Some? ==> exists i :: 0 <= i < |v.value.children| && v.value.children[i] == (k, r.value)
    ensures r.None? && v.Some? && v.value.Node? ==> forall i :: 0 <= i < |v.value.children| ==> v.value.children[i].0 != k
  {
    match v
    case None => None
    case Some(Leaf(_)) => None
    case Some(Node(children)) => Entry(children, k)
  }

  function Entry(children: seq<(string, Tree)>, k: string): (r: Option<Tree>)
    ensures r.Some? ==> exists i :: 0 <= i < |children| && children[i] == (k, r.value)
    ensures r.None? ==> forall i :: 0 <= i < |children| ==> children[i].0 != k
  {
    if |children| == 0 then None
    else if children[0].0 == k then Some(children[0].1)
    else
      var r := Entry(children[1..], k);
      assert forall i :: 1 <= i < |children| ==> children[i] == children[1..][i - 1];
      r
  }

  /** The `for` loop of `t`: follow the path one key at a time. */
  function Walk(v: Option<Tree>, keys: seq<string>): (r: Option<Tree>)
    ensures v.None? ==> r.None?
    decreases |keys|
  {
    if |keys| == 0 then v else Walk(Child(v, keys[0]), keys[1..])
  }

  /** Once a step finds nothing, the rest of the path finds nothing. */
  lemma {:induction false} WalkStopsAtMissing(v: Option<Tree>, keys: seq<string>, i: nat)
    requires i <= |keys| && Walk(v, keys[..i]).None?
    ensures Walk(v, keys).None?
    decreases i
  {
    if i > 0 {
      assert keys[..i][0] == keys[0] && keys[..i][1..] == keys[1..][..i - 1];
      WalkStopsAtMissing(Child(v, keys[0]), keys[1..], i - 1);
    }
  }

  /** `t(key)` as a value: `value || key`. */
  function Translate(lang: string, key: string): (r: Tree)
    ensures Walk(Catalogue(lang), Split(key)).None? ==> r == Leaf(key)
    ensures Walk(Catalogue(lang), Split(key)) == Some(Leaf("")) ==> r == Leaf(key)
    ensures r != Leaf(key) ==> Walk(Catalogue(lang), Split(key)) == Some(r)
    ensures Walk(Catalogue(lang), Split(key)).Some? && Walk(Catalogue(lang), Split(key)).value != Leaf("") ==>
      r == Walk(Catalogue(lang), Split(key)).value
  {
    match Walk(Catalogue(lang), Split(key))
    case None => Leaf(key)
    case Some(v) => if v == Leaf("") then Leaf(key) else v
  }

  /** A language without a catalogue answers every key with the key. */
  lemma UnknownLanguage(lang: string, key: string)
    requires lang != "en" && lang != "cs"
    ensures Translate(lang, key) == Leaf(key)
  {
  }

  lemma {:induction false} SplitNoDot(s: string)
    requires '.' !in s
    ensures Split(s) == [s]
  {
    if |s| > 0 {
      assert '.' !in s[1..] by {
        forall i | 0 <= i < |s[1..]| ensures s[1..][i] != '.' { assert s[1..][i] == s[i + 1]; }
      }
      SplitNoDot(s[1..]);
      assert s == [s[0]] + s[1..];
    }
  }

  /** The first dot ends the first piece. */
  lemma {:induction false} SplitAtDot(a: string, b: string)
    requires '.' !in a
    ensures Split(a + "." + b) == [a] + Split(b)
  {
    var s := a + "." + b;
    if |a| == 0 {
      assert s == "." + b && s[1..] == b;
    } else {
      assert '.' !in a[1..] by {
        forall i | 0 <= i < |a[1..]| ensures a[1..][i] != '.' { assert a[1..][i] == a[i + 1]; }
      }
      SplitAtDot(a[1..], b);
      assert s[0] == a[0] && s[1..] == a[1..] + "." + b;
      assert a == [a[0]] + a[1..];
    }
  }

  /** A two-piece key `a.b` walks to entry `b` of entry `a`. */
  lemma {:induction false} TwoPieceKey(lang: string, a: string, b: string)
    requires '.' !in a && '.' !in b
    ensures Walk(Catalogue(lang), Split(a + "." + b)) == Child(Child(Catalogue(lang), a), b)
  {
    SplitAtDot(a, b);
    SplitNoDot(b);
    assert Split(a + "." + b) == [a, b];
    var v := Catalogue(lang);
    assert [a, b][1..] == [b] && [b][1..] == [];
    assert Walk(v, [a, b]) == Walk(Child(v, a), [b]);
    assert Walk(Child(v, a), [b]) == Walk(Child(Child(v, a), b), []);
  }

  /** Following the path to its end: `t('app.name')`. */
  lemma {:induction false} AppNameLookup()
    ensures Translate("en", "app.name") == Leaf("Shopping List")
    ensures Translate("cs", "app.name") == Leaf("N\U{00E1}kupn\U{00ED} seznam")
  {
    assert "app.name" == "app" + "." + "name";
    TwoPieceKey("en", "app", "name");
    TwoPieceKey("cs", "app", "name");
    assert Child(Some(En), "app") == Some(EnApp);
    assert Child(Some(Cs), "app") == Some(CsApp);
  }

  /** A path that stops at an object yields the object, not the key; one that
      names no entry yields the key. */
  lemma {:induction false} SubtreeAndMissingLookup()
    ensures Translate("en", "app") == EnApp
    ensures Translate("en", "app.title") == Leaf("app.title")
  {
    SplitNoDot("app");
    assert Child(Some(En), "app") == Some(EnApp);
    assert Walk(Some(En), ["app"]) == Walk(Some(EnApp), []);
    assert "app.title" == "app" + "." + "title";
    SplitAtDot("app", "title");
    SplitNoDot("title");
    assert Entry(EnApp.children[1..], "title") == None;
    assert Child(Some(EnApp), "title") == None;
    assert Walk(Some(En), ["app", "title"]) == Walk(None, ["title"]);
  }

  class LanguageProvider {
    var language: string
    /** `localStorage.getItem('language')` */
    var stored: Option<string>
    /** `document.documentElement.lang` */
    var documentLang: Option<string>

    /** The initial language is the stored one, or English when nothing (or an
        empty string) is stored. */
    constructor (stored: Option<string>, documentLang: Option<string>)
      ensures language == (if Truthy(stored) then stored.value else "en")
      ensures this.stored == stored && this.documentLang == documentLang
    {
      language := OrElse(stored, Some(DefaultLanguage)).value;
      this.stored := stored;
      this.documentLang := documentLang;
    }

    method SwitchLanguage(lang: string)
      modifies this
      ensures language == lang && stored == Some(lang) && documentLang == Some(lang)
    {
      language := lang;
      stored := Some(lang);
      documentLang := Some(lang);
    }

    /** `t(key)` */
    method T(key: string) returns (r: Tree)
      ensures r == Translate(language, key)
    {
      var keys := Split(key);
      var value := Catalogue(language);
      var i := 0;
      while i < |keys|
        invariant 0 <= i <= |keys|
        invariant Walk(value, keys[i..]) == Walk(Catalogue(language), keys)
      {
        assert keys[i..][0] == keys[i] && keys[i..][1..] == keys[i + 1..];
        value := Child(value, keys[i]);
        i := i + 1;
      }
      assert keys[i..] == [];
      match value
      case None => r := Leaf(key);
      case Some(v) => r := if v == Leaf("") then Leaf(key) else v;
    }
  }
}
