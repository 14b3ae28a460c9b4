/**
 * The frontend service layer: the result shape of every backend call (`apiCall`), the theme
 * and toast services with their listener lists, and the password-recovery e-mail template.
 */
module FrontendServices {
  import opened Wrappers
  import opened Js
  import opened Text
  import RequestValidation

  // ---------------------------------------------------------------- apiCall

  /** How the awaited HTTP call settled: with its response, or rejected with an error object's own properties. */
  datatype Settled = Fulfilled(response: Value) | Rejected(error: map<string, Value>)

  const API_ERROR: string := "API hiba történt"

  /** `error.response?.data?.message`: the message the server put in its error body, if any. */
  function ServerMessage(error: map<string, Value>): Value {
    Prop(Prop(Prop(Obj(error), "response"), "data"), "message")
  }

  /** `apiCall(axiosCall, errorMessage = 'API hiba történt')`, given how `axiosCall()` settled. */
  function ApiCall(outcome: Settled, errorMessage: Value := Undefined): (r: Value)
    ensures r.Obj? && "success" in r.fields && r.fields["success"] == Bool(outcome.Fulfilled?)
    ensures outcome.Fulfilled? ==> r.fields.Keys == {"success", "data"} && r.fields["data"] == Prop(outcome.response, "data")
    ensures outcome.Rejected? ==> r.fields.Keys == {"success", "message", "error"} && r.fields["error"] == Obj(outcome.error)
    ensures outcome.Rejected? && Truthy(ServerMessage(outcome.error)) ==> r.fields["message"] == ServerMessage(outcome.error)
    ensures outcome.Rejected? && !Truthy(ServerMessage(outcome.error)) ==> r.fields["message"] == OrDefault(errorMessage, API_ERROR)
  {
    match outcome
    case Fulfilled(response) => Obj(map["success" := Bool(true), "data" := Prop(response, "data")])
    case Rejected(error) =>
      var serverMessage := ServerMessage(error);
      var message := if Truthy(serverMessage) then serverMessage else OrDefault(errorMessage, API_ERROR);
      Obj(map["success" := Bool(false), "message" := message, "error" := Obj(error)])
  }

  /** A rejection always carries a message: the server's, or a non-empty default. */
  lemma ApiCallFailureHasMessage(error: map<string, Value>)
    ensures Truthy(Prop(ApiCall(Rejected(error)), "message"))
  {
  }

  // ---------------------------------------------------------------- listener lists

  /** A callback, compared by identity as `!==` compares functions. */
  type Listener = nat

  /** One call of a listener with its argument. */
  datatype Notice<A> = Notice(listener: Listener, arg: A)

  /** The calls `listeners.forEach(cb => cb(arg))` makes, in order. */
  function Broadcast<A>(listeners: seq<Listener>, arg: A): seq<Notice<A>> {
    seq(|listeners|, i requires 0 <= i < |listeners| => Notice(listeners[i], arg))
  }

  /** `listeners.filter(l => l !== callback)` */
  function Without(listeners: seq<Listener>, callback: Listener): (r: seq<Listener>)
    ensures |r| <= |listeners|
  {
    if listeners == [] then []
    else (if listeners[0] == callback then [] else [listeners[0]]) + Without(listeners[1..], callback)
  }

  /** Removal drops every copy of the callback and keeps every other listener. */
  lemma {:induction false} WithoutMembers(listeners: seq<Listener>, callback: Listener)
    ensures multiset(Without(listeners, callback)) == multiset(listeners)[callback := 0]
  {
    if listeners != [] {
      WithoutMembers(listeners[1..], callback);
      assert listeners == [listeners[0]] + listeners[1..];
    }
  }

  /** Removal keeps the order of the remaining listeners: it works piece by piece. */
  lemma {:induction false} WithoutAppend(a: seq<Listener>, b: seq<Listener>, callback: Listener)
    ensures Without(a + b, callback) == Without(a, callback) + Without(b, callback)
  {
    if a == [] {
      assert a + b == b;
    } else {
      assert (a + b)[1..] == a[1..] + b;
      WithoutAppend(a[1..], b, callback);
    }
  }

  /** Removing a callback that was never added changes nothing. */
  lemma {:induction false} WithoutAbsent(listeners: seq<Listener>, callback: Listener)
    requires callback !in listeners
    ensures Without(listeners, callback) == listeners
  {
    if listeners != [] {
      WithoutAbsent(listeners[1..], callback);
    }
  }

  /** Adding a listener and removing it again restores a list that did not hold it. */
  lemma AddThenRemoveListener(listeners: seq<Listener>, callback: Listener)
    requires callback !in listeners
    ensures Without(listeners + [callback], callback) == listeners
  {
    WithoutAppend(listeners, [callback], callback);
    WithoutAbsent(listeners, callback);
  }

  // ---------------------------------------------------------------- theme

  const THEME_KEY: string := "selected-theme"

  /** `['light', 'dark'].includes(theme)` */
  predicate IsTheme(theme: Value) {
    theme == Str("light") || theme == Str("dark")
  }

  /**
   * `getInitialTheme()`: a valid saved theme, else `dark` when the system prefers it, else
   * `light`. `media` is `None` without `window.matchMedia`, otherwise whether the dark scheme matches.
   */
  function InitialTheme(saved: Option<string>, media: Option<bool>): (theme: string)
    ensures IsTheme(Str(theme))
    ensures saved.Some? && IsTheme(Str(saved.value)) ==> theme == saved.value
    ensures !(saved.Some? && IsTheme(Str(saved.value))) ==> (theme == "dark" <==> media == Some(true))
  {
    if saved.Some? && saved.value != "" && IsTheme(Str(saved.value)) then saved.value
    else if media == Some(true) then "dark"
    else "light"
  }

  /** The theme `toggleTheme` asks for. */
  function Toggled(theme: string): (t: string)
    ensures IsTheme(Str(t))
    ensures t == "dark" <==> theme == "light"
  {
    if theme == "light" then "dark" else "light"
  }

  /** Toggling twice comes back to a valid theme. */
  lemma ToggleTwice(theme: string)
    requires IsTheme(Str(theme))
    ensures Toggled(Toggled(theme)) == theme
  {
  }

  /**
   * `ThemeService`. The browser is part of the state: `saved` is the `selected-theme` storage
   * item, `applied` the theme last written to the document element, `notified` every
   * listener call so far.
   */
  class ThemeService {
    var currentTheme: string
    var listeners: seq<Listener>
    var saved: Option<string>
    var applied: Option<string>
    var notified: seq<Notice<string>>
    var followsSystem: bool
    const media: Option<bool>

    /** The current theme is a valid one, and it is the one on the document once a theme was applied. */
    predicate Valid()
      reads this
    {
      IsTheme(Str(currentTheme)) && (applied.Some? ==> applied.value == currentTheme)
    }

    constructor(saved: Option<string>, media: Option<bool>)
      ensures Valid()
      ensures currentTheme == "light" && listeners == [] && notified == [] && !followsSystem
      ensures this.saved == saved && applied == None && this.media == media
    {
      currentTheme := "light";
      listeners := [];
      this.saved := saved;
      applied := None;
      notified := [];
      followsSystem := false;
      this.media := media;
    }

    /** `init()`: pick the initial theme, apply it, and follow the system scheme when `matchMedia` exists. */
    method Init()
      requires Valid()
      modifies this
      ensures Valid()
      ensures currentTheme == InitialTheme(saved, media) && applied == Some(currentTheme)
      ensures followsSystem == media.Some?
      ensures listeners == old(listeners) && saved == old(saved) && notified == old(notified)
    {
      currentTheme := InitialTheme(saved, media);
      applied := Some(currentTheme);
      followsSystem := media.Some?;
    }

    /** `notifyListeners(theme)`: every listener is called once, in list order. */
    method NotifyListeners(theme: string)
      modifies this
      ensures notified == old(notified) + Broadcast(listeners, theme)
      ensures currentTheme == old(currentTheme) && listeners == old(listeners) && saved == old(saved)
      ensures applied == old(applied) && followsSystem == old(followsSystem)
    {
      var i := 0;
      while i < |listeners|
        invariant 0 <= i <= |listeners|
        invariant notified == old(notified) + Broadcast(listeners[..i], theme)
        invariant currentTheme == old(currentTheme) && listeners == old(listeners) && saved == old(saved)
        invariant applied == old(applied) && followsSystem == old(followsSystem)
      {
        assert Broadcast(listeners[..i + 1], theme) == Broadcast(listeners[..i], theme) + [Notice(listeners[i], theme)];
        notified := notified + [Notice(listeners[i], theme)];
        i := i + 1;
      }
      assert listeners[..i] == listeners;
    }

    /** `setTheme(theme)`: anything but `light` or `dark` is ignored entirely. */
    method SetTheme(theme: Value)
      requires Valid()
      modifies this
      ensures Valid()
      ensures !IsTheme(theme) ==>
        currentTheme == old(currentTheme) && saved == old(saved) && applied == old(applied) && notified == old(notified)
      ensures IsTheme(theme) ==>
        Str(currentTheme) == theme && saved == Some(currentTheme) && applied == Some(currentTheme) &&
        notified == old(notified) + Broadcast(listeners, currentTheme)
      ensures listeners == old(listeners) && followsSystem == old(followsSystem)
    {
      if !IsTheme(theme) {
        return;
      }
      currentTheme := theme.s;
      saved := Some(theme.s);
      applied := Some(theme.s);
      NotifyListeners(theme.s);
    }

    /** `toggleTheme()`: `light` becomes `dark`, anything else `light`. */
    method ToggleTheme()
      requires Valid()
      modifies this
      ensures Valid()
      ensures currentTheme == Toggled(old(currentTheme)) && saved == Some(currentTheme) && applied == Some(currentTheme)
      ensures notified == old(notified) + Broadcast(listeners, currentTheme)
      ensures listeners == old(listeners) && followsSystem == old(followsSystem)
    {
      SetTheme(Str(Toggled(currentTheme)));
    }

    /** `getCurrentTheme()` */
    function GetCurrentTheme(): (theme: string)
      reads this
      requires Valid()
      ensures IsTheme(Str(theme))
    {
      currentTheme
    }

    /** `addListener(callback)` (also `addThemeChangeListener`). */
    method AddListener(callback: Listener)
      modifies this
      ensures listeners == old(listeners) + [callback]
      ensures currentTheme == old(currentTheme) && saved == old(saved) && applied == old(applied)
      ensures notified == old(notified) && followsSystem == old(followsSystem)
    {
      listeners := listeners + [callback];
    }

    /** `removeListener(callback)` (also `removeThemeChangeListener`). */
    method RemoveListener(callback: Listener)
      modifies this
      ensures listeners == Without(old(listeners), callback)
      ensures currentTheme == old(currentTheme) && saved == old(saved) && applied == old(applied)
      ensures notified == old(notified) && followsSystem == old(followsSystem)
    {
      listeners := Without(listeners, callback);
    }

    /**
     * The listener `setupSystemThemeListener` registers, called when the system scheme changes:
     * it follows the system only while no theme is saved.
     */
    method SystemThemeChanged(matches: bool)
      requires Valid()
      modifies this
      ensures Valid()
      ensures old(followsSystem) && !(old(saved).Some? && old(saved).value != "") ==>
        currentTheme == (if matches then "dark" else "light") && saved == Some(currentTheme) &&
        applied == Some(currentTheme) && notified == old(notified) + Broadcast(listeners, currentTheme)
      ensures !(old(followsSystem) && !(old(saved).Some? && old(saved).value != "")) ==>
        currentTheme == old(currentTheme) && saved == old(saved) && applied == old(applied) && notified == old(notified)
      ensures listeners == old(listeners) && followsSystem == old(followsSystem)
    {
      if followsSystem && !(saved.Some? && saved.value != "") {
        SetTheme(Str(if matches then "dark" else "light"));
      }
    }
  }

  // ---------------------------------------------------------------- toasts

  /** The toast object handed to every toast listener. */
  datatype Toast = Toast(id: real, message: Value, kind: string, duration: int, visible: bool)

  /** `ToastService`; `shown` is every listener call so far. */
  class ToastService {
    var listeners: seq<Listener>
    var shown: seq<Notice<Toast>>

    constructor()
      ensures listeners == [] && shown == []
    {
      listeners := [];
      shown := [];
    }

    method AddListener(callback: Listener)
      modifies this
      ensures listeners == old(listeners) + [callback] && shown == old(shown)
    {
      listeners := listeners + [callback];
    }

    method RemoveListener(callback: Listener)
      modifies this
      ensures listeners == Without(old(listeners), callback) && shown == old(shown)
    {
      listeners := Without(listeners, callback);
    }

    /**
     * `show(message, type = 'success', duration = 4000)`: a visible toast goes to every listener
     * in order. `id` stands for the `Date.now() + Math.random()` it is given.
     */
    method Show(id: real, message: Value, kind: string := "success", duration: int := 4000) returns (toastId: real)
      modifies this
      ensures toastId == id
      ensures shown == old(shown) + Broadcast(listeners, Toast(id, message, kind, duration, true))
      ensures listeners == old(listeners)
    {
      var toast := Toast(id, message, kind, duration, true);
      var i := 0;
      while i < |listeners|
        invariant 0 <= i <= |listeners|
        invariant shown == old(shown) + Broadcast(listeners[..i], toast)
        invariant listeners == old(listeners)
      {
        assert Broadcast(listeners[..i + 1], toast) == Broadcast(listeners[..i], toast) + [Notice(listeners[i], toast)];
        shown := shown + [Notice(listeners[i], toast)];
        i := i + 1;
      }
      assert listeners[..i] == listeners;
      toastId := id;
    }

    /** `success(message, duration = 4000)` */
    method Success(id: real, message: Value, duration: int := 4000)
      modifies this
      ensures shown == old(shown) + Broadcast(listeners, Toast(id, message, "success", duration, true))
      ensures listeners == old(listeners)
    {
      var _ := Show(id, message, "success", duration);
    }

    /** `error(message, duration = 5000)`: errors stay longer by default. */
    method Error(id: real, message: Value, duration: int := 5000)
      modifies this
      ensures shown == old(shown) + Broadcast(listeners, Toast(id, message, "error", duration, true))
      ensures listeners == old(listeners)
    {
      var _ := Show(id, message, "error", duration);
    }

    /** `warning(message, duration = 4000)` */
    method Warning(id: real, message: Value, duration: int := 4000)
      modifies this
      ensures shown == old(shown) + Broadcast(listeners, Toast(id, message, "warning", duration, true))
      ensures listeners == old(listeners)
    {
      var _ := Show(id, message, "warning", duration);
    }

    /** `info(message, duration = 4000)` */
    method Info(id: real, message: Value, duration: int := 4000)
      modifies this
      ensures shown == old(shown) + Broadcast(listeners, Toast(id, message, "info", duration, true))
      ensures listeners == old(listeners)
    {
      var _ := Show(id, message, "info", duration);
    }
  }

  // ---------------------------------------------------------------- password-recovery template

  /** The e-mail template the frontend sends with a password-recovery request. */
  datatype EmailTemplate = EmailTemplate(subject: string, html: string, text: string)

  /** The texts of one locale of the template. */
  datatype Content = Content(
    subject: string,
    greeting: string,
    title: string,
    description: string,
    buttonText: string,
    expiryInfo: string,
    notYou: string,
    footer: string)

  const HU_FOOTER_GREETING: string := "Üdvözlettel,"
  const HU_FOOTER_NAME: string := "Czakó Orsolya"
  const HU_FOOTER: string := HU_FOOTER_GREETING + "<br>" + HU_FOOTER_NAME

  /** The greeting: the name when it is truthy, the generic addressee otherwise. */
  function Greeting(userFullName: Value): (g: string)
    ensures Truthy(userFullName) ==> g == "Kedves " + ToStr(userFullName) + "!"
    ensures !Truthy(userFullName) ==> g == "Kedves Felhasználó!"
  {
    if Truthy(userFullName) then "Kedves " + ToStr(userFullName) + "!" else "Kedves Felhasználó!"
  }

  /**
   * The fixed `hu` texts, in the order subject, title, description, buttonText, expiryInfo
   * and notYou.
   */
  function HuText(k: nat): string
    requires k < 6
  {
    match k
    case 0 => "Jelszó visszaállítás kérése"
    case 1 => "Jelszó visszaállítás"
    case 2 => "Jelszó visszaállítási kérelmet kaptunk a fiókodhoz. Ha te voltál, kattints az alábbi gombra:"
    case 3 => "Jelszó visszaállítása"
    case 4 => "Ez a link 24 órán belül lejár."
    case _ => "Ha nem te kérted ezt a változtatást, kérjük hagyd figyelmen kívül ezt az emailt."
  }

  /** The fixed `hu` texts as a sequence. */
  function HuTexts(): seq<string> {
    seq(6, k requires 0 <= k < 6 => HuText(k))
  }

  /** The `hu` texts, the only locale of the table. */
  function Hu(userFullName: Value): Content {
    var t := HuTexts();
    Content(t[0], Greeting(userFullName), t[1], t[2], t[3], t[4], t[5], HU_FOOTER)
  }

  /** The `hu` subject is not empty. */
  lemma HuSubjectNonEmpty(userFullName: Value)
    ensures Hu(userFullName).subject != ""
  {
    assert HuTexts()[0] == HuText(0);
    assert HuText(0)[0] == 'J';
  }

  /** `templates[locale]`: only the key `hu` exists. */
  function Templates(locale: Value, userFullName: Value): Option<Content> {
    if ToStr(locale) == "hu" then Some(Hu(userFullName)) else None
  }

  /**
   * A template literal: the literal pieces `strings` with the substitutions `values` between
   * them, as in `${a}…${b}`.
   */
  function Interpolate(strings: seq<string>, values: seq<string>): string
    requires |strings| == |values| + 1
    decreases |values|
  {
    if values == [] then strings[0] else strings[0] + values[0] + Interpolate(strings[1..], values[1..])
  }

  /** Every substituted value occurs in the result. */
  lemma {:induction false} InterpolateContains(strings: seq<string>, values: seq<string>, k: nat)
    requires |strings| == |values| + 1 && k < |values|
    decreases |values|
    ensures Contains(Interpolate(strings, values), values[k])
  {
    var rest := Interpolate(strings[1..], values[1..]);
    if k == 0 {
      ContainsMiddle(strings[0], values[0], rest);
    } else {
      InterpolateContains(strings[1..], values[1..], k - 1);
      ContainsIffOccurs(rest, values[k]);
      var i: nat :| OccursAt(rest, values[k], i);
      var prefix := strings[0] + values[0];
      assert (prefix + rest)[|prefix| + i..|prefix| + i + |values[k]|] == rest[i..i + |values[k]|];
      ContainsIffOccurs(prefix + rest, values[k]);
      assert OccursAt(prefix + rest, values[k], |prefix| + i);
    }
  }

  /** With an empty first piece, the result starts with the first value. */
  lemma InterpolateStartsWith(strings: seq<string>, values: seq<string>)
    requires |strings| == |values| + 1 && values != [] && strings[0] == ""
    ensures var r := Interpolate(strings, values); |values[0]| <= |r| && r[..|values[0]|] == values[0]
  {
    var rest := Interpolate(strings[1..], values[1..]);
    assert Interpolate(strings, values) == values[0] + rest;
  }

  /** With an empty last piece, the result ends with the last value. */
  lemma {:induction false} InterpolateEndsWith(strings: seq<string>, values: seq<string>)
    requires |strings| == |values| + 1 && values != [] && strings[|values|] == ""
    decreases |values|
    ensures var r := Interpolate(strings, values); var v := values[|values| - 1];
      |v| <= |r| && r[|r| - |v|..] == v
  {
    var v := values[|values| - 1];
    if |values| == 1 {
      assert Interpolate(strings[1..], values[1..]) == strings[1] == "";
      EndsWith(strings[0], v);
      assert Interpolate(strings, values) == strings[0] + v;
    } else {
      InterpolateEndsWith(strings[1..], values[1..]);
      var rest := Interpolate(strings[1..], values[1..]);
      ConcatAssoc(strings[0], values[0], rest);
      assert rest[|rest| - |v|..] == v;
      var r := Interpolate(strings, values);
      assert r == (strings[0] + values[0]) + rest;
      assert r[|r| - |v|..] == rest[|rest| - |v|..];
    }
  }

  /** The end of a concatenation is its last part. */
  lemma EndsWith(x: string, y: string)
    ensures (x + y)[|x + y| - |y|..] == y
  {
  }

  /** The literal pieces of the HTML body, in order: before, between and after the substitutions. */
  function HtmlPiece(k: nat): string
    requires k < 10
  {
    match k
    case 0 => "<!DOCTYPE html><html><head><title>"
    case 1 => "</title></head><body style=\"font-family: Arial, sans-serif; max-width: 600px; margin: 0 auto; padding: 20px;\"><div style=\"background: #ec4899; color: white; padding: 30px; text-align: center; border-radius: 8px 8px 0 0;\"><h1>"
    case 2 => "</h1></div><div style=\"background: white; padding: 30px; border: 1px solid #ddd; border-top: none; border-radius: 0 0 8px 8px;\"><p>"
    case 3 => "</p><p>"
    case 4 => "</p><div style=\"text-align: center; margin: 30px 0;\"><a href=\""
    case 5 => "\" style=\"background: #ec4899; color: white; padding: 15px 30px; text-decoration: none; border-radius: 5px; display: inline-block;\">"
    case 6 => "</a></div><p style=\"background: #fff3cd; padding: 15px; border-radius: 5px; color: #856404;\">"
    case 7 => "</p><p>"
    case 8 => "</p><hr><p>"
    case _ => "</p></div></body></html>"
  }

  /** The HTML body's literal pieces as a sequence. */
  function HtmlStrings(): seq<string> {
    seq(10, k requires 0 <= k < 10 => HtmlPiece(k))
  }

  /** The values substituted into the HTML body, in order. */
  function HtmlValues(c: Content, link: string): seq<string> {
    [c.subject, c.title, c.greeting, c.description, link, c.buttonText, c.expiryInfo, c.notYou, c.footer]
  }

  /** The literal pieces of the plain-text body. */
  const TEXT_STRINGS: seq<string> := ["", "\n\n", "\n\n", "\n\n", ": ", "\n\n", "\n\n", "\n\n", ""]

  /** The text footer: `footer.replace('<br>', '\n')` breaks its line once. */
  function TextFooter(c: Content): string {
    ReplaceFirst(c.footer, "<br>", "\n")
  }

  /** The values substituted into the plain-text body, in order. */
  function TextValues(c: Content, link: string): seq<string> {
    [c.greeting, c.title, c.description, c.buttonText, link, c.expiryInfo, c.notYou, TextFooter(c)]
  }

  /** The literal pieces of both bodies: nine substitutions in the HTML, eight in the text. */
  datatype Layout = Layout(html: seq<string>, text: seq<string>)

  /** The shape `Build` needs; the text body starts with the greeting and ends with the footer. */
  predicate Fits(layout: Layout) {
    |layout.html| == 10 && |layout.text| == 9 && layout.text[0] == "" && layout.text[8] == ""
  }

  const LAYOUT: Layout := Layout(HtmlStrings(), TEXT_STRINGS)

  /** The template built from one locale's texts in a layout. */
  function Build(c: Content, link: string, layout: Layout): EmailTemplate
    requires Fits(layout)
  {
    EmailTemplate(c.subject, Interpolate(layout.html, HtmlValues(c, link)), Interpolate(layout.text, TextValues(c, link)))
  }

  /** `generatePasswordRecoveryTemplate(recoveryLink, locale = 'hu', userFullName = '')` */
  function RecoveryTemplate(recoveryLink: Value, locale: Value := Str("hu"), userFullName: Value := Str("")): (r: EmailTemplate)
    ensures r.subject == Hu(userFullName).subject
  {
    LocaleFallsBackToHu(locale, userFullName);
    Build(LocaleContent(locale, userFullName), ToStr(recoveryLink), LAYOUT)
  }

  /** `templates[locale] || templates.hu` */
  function LocaleContent(locale: Value, userFullName: Value): Content {
    Templates(locale, userFullName).GetOr(Hu(userFullName))
  }

  /** Every locale gets the Hungarian texts. */
  lemma LocaleFallsBackToHu(locale: Value, userFullName: Value)
    ensures LocaleContent(locale, userFullName) == Hu(userFullName)
  {
    if ToStr(locale) == "hu" {
      assert Templates(locale, userFullName) == Some(Hu(userFullName));
    } else {
      assert Templates(locale, userFullName) == None;
    }
  }

  /** The HTML body carries the link, the subject and every text of the locale. */
  lemma HtmlCarriesTexts(c: Content, link: string, layout: Layout)
    requires Fits(layout)
    ensures Contains(Build(c, link, layout).html, link)
    ensures forall k :: 0 <= k < |HtmlValues(c, link)| ==> Contains(Build(c, link, layout).html, HtmlValues(c, link)[k])
  {
    forall k | 0 <= k < |HtmlValues(c, link)|
      ensures Contains(Build(c, link, layout).html, HtmlValues(c, link)[k])
    {
      InterpolateContains(layout.html, HtmlValues(c, link), k);
    }
    assert HtmlValues(c, link)[4] == link;
  }

  /** The text body opens with the greeting, carries the link, and ends with the text footer. */
  lemma TextContents(c: Content, link: string, layout: Layout)
    requires Fits(layout)
    ensures Contains(Build(c, link, layout).text, link)
    ensures |c.greeting| <= |Build(c, link, layout).text| && Build(c, link, layout).text[..|c.greeting|] == c.greeting
    ensures |TextFooter(c)| <= |Build(c, link, layout).text| &&
      Build(c, link, layout).text[|Build(c, link, layout).text| - |TextFooter(c)|..] == TextFooter(c)
  {
    InterpolateContains(layout.text, TextValues(c, link), 4);
    InterpolateStartsWith(layout.text, TextValues(c, link));
    InterpolateEndsWith(layout.text, TextValues(c, link));
  }

  /** In the `hu` footer only its one `<br>` becomes a line break. */
  lemma HuFooterBreaksOnce()
    ensures ReplaceFirst(HU_FOOTER, "<br>", "\n") == HU_FOOTER_GREETING + "\n" + HU_FOOTER_NAME
  {
    IndexOfAfterFreePrefix(HU_FOOTER_GREETING, "<br>", HU_FOOTER_NAME, 0);
    assert HU_FOOTER[..|HU_FOOTER_GREETING|] == HU_FOOTER_GREETING;
    assert HU_FOOTER[|HU_FOOTER_GREETING| + 4..] == HU_FOOTER_NAME;
  }

  /** `{ subject, html, text }` as the request body carries it. */
  function TemplateValue(t: EmailTemplate): Value {
    Obj(map["subject" := Str(t.subject), "html" := Str(t.html), "text" := Str(t.text)])
  }

  /** A template with a subject and an HTML body passes the backend's `validateEmailTemplate` check. */
  lemma TemplatePassesValidation(t: EmailTemplate, email: Value)
    requires t.subject != "" && t.html != ""
    ensures RequestValidation.ValidateEmailTemplate(
              Obj(map["email" := email, "emailTemplate" := TemplateValue(t)])) == RequestValidation.Next
  {
    var body := Obj(map["email" := email, "emailTemplate" := TemplateValue(t)]);
    assert Prop(body, "emailTemplate") == TemplateValue(t);
    assert Prop(TemplateValue(t), "subject") == Str(t.subject);
    assert Prop(TemplateValue(t), "html") == Str(t.html);
  }

  /** A template built from texts with a subject has a non-empty HTML body, which carries the subject. */
  lemma BuiltTemplateHasHtml(c: Content, link: string, layout: Layout)
    requires Fits(layout) && c.subject != ""
    ensures Build(c, link, layout).html != ""
  {
    InterpolateContains(layout.html, HtmlValues(c, link), 0);
    ContainsIffOccurs(Build(c, link, layout).html, c.subject);
  }

  /**
   * The recovery template for any link, locale and name: the Hungarian subject, the link in
   * both bodies, and a body the backend's template check accepts.
   */
  lemma RecoveryTemplateContents(recoveryLink: Value, locale: Value, userFullName: Value, email: Value)
    ensures RecoveryTemplate(recoveryLink, locale, userFullName).subject == Hu(userFullName).subject
    ensures Contains(RecoveryTemplate(recoveryLink, locale, userFullName).html, ToStr(recoveryLink))
    ensures Contains(RecoveryTemplate(recoveryLink, locale, userFullName).text, ToStr(recoveryLink))
    ensures RequestValidation.ValidateEmailTemplate(
              Obj(map["email" := email, "emailTemplate" := TemplateValue(RecoveryTemplate(recoveryLink, locale, userFullName))]))
            == RequestValidation.Next
  {
    var c := LocaleContent(locale, userFullName);
    LocaleFallsBackToHu(locale, userFullName);
    HtmlCarriesTexts(c, ToStr(recoveryLink), LAYOUT);
    TextContents(c, ToStr(recoveryLink), LAYOUT);
    HuSubjectNonEmpty(userFullName);
    BuiltTemplateHasHtml(c, ToStr(recoveryLink), LAYOUT);
    TemplatePassesValidation(RecoveryTemplate(recoveryLink, locale, userFullName), email);
  }
}
