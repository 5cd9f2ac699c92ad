/** The profile form: the change handler that writes one input's value into
    the profile being edited, and the link to the public directory page,
    whose slug is the lower-cased business name with every run of
    whitespace replaced by a single "-". */
module ProfileForm {
  import opened Reviews

  /** The value a profile field holds in the form's state. */
  datatype FieldValue = Text(s: string) | Flag(b: bool) | Null

  /** The edited profile: field name to value. */
  type Profile = map<string, FieldValue>

  /** The `name` and `type` of every control of the form. */
  const Controls: map<string, string> := map[
    "business_name" := "text",
    "website_url" := "url",
    "street_address" := "text",
    "city" := "text",
    "postal_code" := "text",
    "country" := "text",
    "phone" := "tel",
    "services_description" := "textarea",
    "is_public" := "checkbox",
    "category" := "select-one"
  ]

  /** What the handler reads from the event's target. */
  datatype ChangeEvent = ChangeEvent(name: string, value: string, inputType: string, checked: bool)

  /** An event raised by one of the form's own controls. */
  predicate FromForm(e: ChangeEvent)
  {
    e.name in Controls && e.inputType == Controls[e.name]
  }

  /** `setProfile(prev => ({ ...prev, [name]: type === 'checkbox' ? checked : value }))` */
  function HandleChange(p: Profile, e: ChangeEvent): (q: Profile)
    ensures q.Keys == p.Keys + {e.name}
    ensures forall k :: k in p && k != e.name ==> q[k] == p[k]
    ensures e.inputType == "checkbox" ==> q[e.name] == Flag(e.checked)
    ensures e.inputType != "checkbox" ==> q[e.name] == Text(e.value)
  {
    p[e.name := if e.inputType == "checkbox" then Flag(e.checked) else Text(e.value)]
  }

  /** The checkbox field holds a boolean and the others hold text or `null`,
      as the profile's type says. */
  predicate WellTyped(p: Profile)
  {
    forall k :: k in Controls && k in p ==> (p[k].Flag? <==> Controls[k] == "checkbox")
  }

  /** The form's own events keep the profile well typed. */
  lemma HandleChangeKeepsTypes(p: Profile, e: ChangeEvent)
    requires WellTyped(p) && FromForm(e)
    ensures WellTyped(HandleChange(p, e))
  {
  }

  /** Two changes to different fields commute. */
  lemma ChangesCommute(p: Profile, e1: ChangeEvent, e2: ChangeEvent)
    requires e1.name != e2.name
    ensures HandleChange(HandleChange(p, e1), e2) == HandleChange(HandleChange(p, e2), e1)
  {
  }

  /** A field as JavaScript reads it: a missing field is `undefined`. */
  function Field(p: Profile, k: string): FieldValue
  {
    if k in p then p[k] else Null
  }

  function Truthy(v: FieldValue): bool
  {
    match v
    case Text(s) => s != ""
    case Flag(b) => b
    case Null => false
  }

  // ----- the slug -----

  /** The characters JavaScript's `\s` matches. */
  predicate IsJsWhitespace(c: char)
  {
    || '\t' <= c <= '\r'
    || c == ' '
    || c == '\U{00A0}'
    || c == '\U{1680}'
    || '\U{2000}' <= c <= '\U{200A}'
    || c == '\U{2028}'
    || c == '\U{2029}'
    || c == '\U{202F}'
    || c == '\U{205F}'
    || c == '\U{3000}'
    || c == '\U{FEFF}'
  }

  predicate NoWhitespace(s: string)
  {
    forall i :: 0 <= i < |s| ==> !IsJsWhitespace(s[i])
  }

  predicate AllWhitespace(s: string)
  {
    forall i :: 0 <= i < |s| ==> IsJsWhitespace(s[i])
  }

  function LowerChar(c: char): char
  {
    if 'A' <= c <= 'Z' then (c as int + 32) as char else c
  }

  /** `toLowerCase()` on the ASCII letters. */
  function Lower(s: string): (r: string)
    ensures |r| == |s|
  {
    seq(|s|, i requires 0 <= i < |s| => LowerChar(s[i]))
  }

  /** `replace(/\s+/g, '-')`, scanning left to right; `inRun` says whether the
      previous character was whitespace already replaced. */
  function Collapse(s: string, inRun: bool): (r: string)
    ensures NoWhitespace(r)
    ensures |r| <= |s|
  {
    if s == [] then []
    else if IsJsWhitespace(s[0]) then
      (if inRun then [] else "-") + Collapse(s[1..], true)
    else [s[0]] + Collapse(s[1..], false)
  }

  /** `business_name.toLowerCase().replace(/\s+/g, '-')`, before encoding. */
  function Slug(name: string): string
  {
    Collapse(Lower(name), false)
  }

  /** The name's characters other than whitespace and "-". */
  function Strip(s: string): string
  {
    if s == [] then [] else (if IsJsWhitespace(s[0]) || s[0] == '-' then [] else [s[0]]) + Strip(s[1..])
  }

  /** The link target is there exactly when the profile is public and has a
      non-empty name, and it is the slug of that name. */
  function PublicPageSlug(p: Profile): (r: Option<string>)
    requires WellTyped(p)
    ensures r.Some? <==> Field(p, "is_public") == Flag(true) && Field(p, "business_name").Text? && Field(p, "business_name").s != ""
    ensures r.Some? ==> r.value == Slug(Field(p, "business_name").s)
  {
    if Truthy(Field(p, "is_public")) && Truthy(Field(p, "business_name")) then
      Some(Slug(Field(p, "business_name").s))
    else None
  }

  lemma LowerConcat(a: string, b: string)
    ensures Lower(a + b) == Lower(a) + Lower(b)
  {
  }

  lemma LowerKeepsWhitespace(s: string)
    ensures NoWhitespace(s) ==> NoWhitespace(Lower(s))
    ensures AllWhitespace(s) ==> AllWhitespace(Lower(s))
  {
  }

  /** A run of non-whitespace passes through unchanged and ends any run. */
  lemma {:induction false} CollapseWord(a: string, t: string, inRun: bool)
    requires NoWhitespace(a) && a != []
    ensures Collapse(a + t, inRun) == a + Collapse(t, false)
  {
    assert (a + t)[0] == a[0];
    assert (a + t)[1..] == a[1..] + t;
    if |a| > 1 {
      CollapseWord(a[1..], t, false);
    }
    assert [a[0]] + a[1..] == a;
  }

  /** A non-empty run of whitespace becomes one "-" when it starts. */
  lemma {:induction false} CollapseRun(w: string, t: string, inRun: bool)
    requires AllWhitespace(w) && w != []
    ensures Collapse(w + t, inRun) == (if inRun then "" else "-") + Collapse(t, true)
  {
    assert (w + t)[0] == w[0];
    assert (w + t)[1..] == w[1..] + t;
    if |w| > 1 {
      CollapseRun(w[1..], t, true);
    } else {
      assert w[1..] + t == t;
    }
  }

  /** After a run, text that does not start with whitespace is read as if no
      run preceded it. */
  lemma CollapseAfterRun(t: string)
    requires t == [] || !IsJsWhitespace(t[0])
    ensures Collapse(t, true) == Collapse(t, false)
  {
  }

  /** A name without whitespace just gets lower-cased. */
  lemma SlugOfWord(name: string)
    requires NoWhitespace(name)
    ensures Slug(name) == Lower(name)
  {
    LowerKeepsWhitespace(name);
    if name != [] {
      CollapseWord(Lower(name), [], false);
      assert Lower(name) + [] == Lower(name);
    }
  }

  /** Each maximal run of whitespace becomes exactly one "-": a word, then a
      run, then the rest give the lower-cased word, one "-", and the slug of
      the rest. */
  lemma SlugOfRun(a: string, w: string, rest: string)
    requires NoWhitespace(a) && AllWhitespace(w) && w != []
    requires rest == [] || !IsJsWhitespace(rest[0])
    ensures Slug(a + w + rest) == Lower(a) + "-" + Slug(rest)
  {
    LowerConcat(a + w, rest);
    LowerConcat(a, w);
    LowerKeepsWhitespace(a);
    LowerKeepsWhitespace(w);
    var la, lw, lr := Lower(a), Lower(w), Lower(rest);
    assert Lower(a + w + rest) == la + (lw + lr);
    assert lr == [] || !IsJsWhitespace(lr[0]);
    CollapseWordThenRun(la, lw, lr);
  }

  /** The scan over a word, a run of whitespace and text that starts with no
      whitespace. */
  lemma CollapseWordThenRun(a: string, w: string, t: string)
    requires NoWhitespace(a) && AllWhitespace(w) && w != []
    requires t == [] || !IsJsWhitespace(t[0])
    ensures Collapse(a + (w + t), false) == a + "-" + Collapse(t, false)
  {
    CollapseRun(w, t, false);
    CollapseAfterRun(t);
    if a != [] {
      CollapseWord(a, w + t, false);
    } else {
      assert a + (w + t) == w + t;
    }
  }

  lemma {:induction false} StripCollapse(s: string, inRun: bool)
    ensures Strip(Collapse(s, inRun)) == Strip(s)
  {
    if s != [] {
      StripCollapse(s[1..], IsJsWhitespace(s[0]));
      var tail := Collapse(s[1..], IsJsWhitespace(s[0]));
      StripConcat(if IsJsWhitespace(s[0]) then (if inRun then [] else "-") else [s[0]], tail);
    }
  }

  lemma {:induction false} StripConcat(a: string, b: string)
    ensures Strip(a + b) == Strip(a) + Strip(b)
  {
    if a != [] {
      assert (a + b)[1..] == a[1..] + b;
      StripConcat(a[1..], b);
    } else {
      assert a + b == b;
    }
  }

  lemma {:induction false} StripLower(s: string)
    ensures Strip(Lower(s)) == Lower(Strip(s))
  {
    if s != [] {
      StripLower(s[1..]);
      assert Lower(s)[1..] == Lower(s[1..]);
      var head := if IsJsWhitespace(s[0]) || s[0] == '-' then [] else [s[0]];
      LowerConcat(head, Strip(s[1..]));
    }
  }

  /** The slug keeps the name's other characters, lower-cased, in order: the
      only characters it drops or adds are whitespace and "-". */
  lemma SlugKeepsCharacters(name: string)
    ensures Strip(Slug(name)) == Lower(Strip(name))
  {
    StripCollapse(Lower(name), false);
    StripLower(name);
  }
}
