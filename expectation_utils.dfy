/** Duck-typing checks for browser objects: `isLocator` and `isPage`. */
module ExpectationUtils {
  import opened Text
  import opened JsValues

  const LocatorNames: seq<string> := [
    "clear", "isEnabled", "isHidden", "getAttribute", "selectOption", "press",
    "type", "dispatchEvent", "dblclick", "setChecked", "isDisabled", "focus",
    "innerText", "inputValue", "check", "isEditable", "fill", "textContent",
    "hover", "waitFor", "click", "uncheck", "isChecked", "isVisible",
    "innerHTML", "tap"]

  const PageNames: seq<string> := ["title", "goto", "url", "close", "mainFrame", "waitForLoadState"]

  /** Every listed name is reachable with `in`. */
  predicate HasAll(v: JsValue, names: seq<string>) {
    forall i :: 0 <= i < |names| ==> In(names[i], v)
  }

  /** `isLocator(value)` */
  predicate IsLocator(v: JsValue) {
    if !Truthy(v) || TypeOf(v) != "object" then false
    else HasAll(v, LocatorNames)
  }

  /** `isPage(value)` */
  predicate IsPage(v: JsValue) {
    if !Truthy(v) || TypeOf(v) != "object" then false
    else HasAll(v, PageNames)
  }

  /** Falsy values and non-objects are neither locators nor pages. */
  lemma NonObjectsRejected(v: JsValue)
    requires !IsObject(v)
    ensures !IsLocator(v) && !IsPage(v)
  {
  }

  /** A plain object is a locator exactly when it owns all 26 names, and a page when it owns the six. */
  lemma PlainObjectChecks(id: nat, ps: seq<Prop>)
    ensures IsLocator(Obj(id, ps)) <==> forall i :: 0 <= i < |LocatorNames| ==> LocatorNames[i] in PropKeys(ps)
    ensures IsPage(Obj(id, ps)) <==> forall i :: 0 <= i < |PageNames| ==> PageNames[i] in PropKeys(ps)
  {
    LocatorNamesNotInherited();
    PageNamesNotInherited();
  }

  /** No locator method is one every object inherits. */
  lemma LocatorNamesNotInherited()
    ensures forall i :: 0 <= i < |LocatorNames| ==> LocatorNames[i] !in ObjectPrototypeNames
  {
    forall i | 0 <= i < |LocatorNames| ensures LocatorNames[i] !in ObjectPrototypeNames {
    }
  }

  /** No page method is one every object inherits. */
  lemma PageNamesNotInherited()
    ensures forall i :: 0 <= i < |PageNames| ==> PageNames[i] !in ObjectPrototypeNames
  {
    forall i | 0 <= i < |PageNames| ensures PageNames[i] !in ObjectPrototypeNames {
    }
  }

  /** Arrays and Sets lack the browser names, whatever they hold: no `tap`, no `url`. */
  lemma CollectionsRejected(v: JsValue)
    requires v.Arr? || v.SetV?
    ensures !IsLocator(v) && !IsPage(v)
  {
    TapAndUrlNotOnObjects();
    TapNotOnCollections();
    UrlNotOnCollections();
    NotAnIndex("tap");
    NotAnIndex("url");
    assert LocatorNames[25] == "tap";
    assert PageNames[2] == "url";
  }

  /** `tap` and `url` are not names every object inherits. */
  lemma TapAndUrlNotOnObjects()
    ensures "tap" !in ObjectPrototypeNames && "url" !in ObjectPrototypeNames
  {
  }

  /** Neither arrays nor Sets have a `tap` method. */
  lemma TapNotOnCollections()
    ensures "tap" !in ArrayPrototypeNames && "tap" !in SetPrototypeNames
  {
  }

  /** Neither arrays nor Sets have a `url` method. */
  lemma UrlNotOnCollections()
    ensures "url" !in ArrayPrototypeNames && "url" !in SetPrototypeNames
  {
  }

  /** A key that starts with a letter is no array index. */
  lemma NotAnIndex(key: string)
    requires key != [] && !IsDigit(key[0])
    ensures KeyIndex(key).None?
  {
  }

  /** Extra properties never turn either check from true to false. */
  lemma ExtraPropertiesKeep(id: nat, ps: seq<Prop>, extra: seq<Prop>)
    ensures IsLocator(Obj(id, ps)) ==> IsLocator(Obj(id, ps + extra))
    ensures IsPage(Obj(id, ps)) ==> IsPage(Obj(id, ps + extra))
  {
    assert forall k :: k in PropKeys(ps) ==> k in PropKeys(ps + extra) by {
      forall k | k in PropKeys(ps) ensures k in PropKeys(ps + extra) {
        var j :| 0 <= j < |ps| && ps[j].key == k;
        assert (ps + extra)[j].key == k;
      }
    }
  }
}
