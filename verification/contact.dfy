/**
 * The contact slide (components/slides/Contact.tsx): eight offices, of
 * which at most one is expanded. On desktop hovering a column expands it;
 * on mobile tapping a row toggles it. Phone and mail links are built from
 * the office record.
 */
module Contact {

  datatype Office = Office(id: string, country: string, phone: string, email: string)

  /** No two offices share an id, and no id is empty (the "none expanded" value). */
  predicate WellKeyed(os: seq<Office>)
  {
    && (forall i :: 0 <= i < |os| ==> os[i].id != "")
    && (forall i, j :: 0 <= i < j < |os| ==> os[i].id != os[j].id)
  }

  /** The offices, in display order. */
  function Offices(): (os: seq<Office>)
    ensures |os| == 8
    ensures WellKeyed(os)
    ensures os[0].id == "cri"
  {
    [ Office("cri", "Costa Rica", "+506 4110-6000", "gpiedra@shiftpn.co.cr"),
      Office("gtm", "Guatemala", "+502 2388-5100", "andreagan@shiftpn.gt"),
      Office("slv", "El Salvador", "+503 7069-0896", "cferreiro@shiftpn.sv"),
      Office("hnd", "Honduras", "+504 9453-8228", "maria.calvo@shift-pn.hn"),
      Office("nic", "Nicaragua", "+505 2254-7627", "rmontenegro@shiftpn.com.ni"),
      Office("dom", "Rep. Dominicana", "809-274-6813", "andrea.ramirez@caribbeanpn.com"),
      Office("ecu", "Ecuador", "+593 995373108", "angelica.moreno@shiftpn.ec"),
      Office("col", "Colombia", "+57 3014360416", "gonzalo.pineros@shiftpn.co") ]
  }

  /** The slide opens with the first office expanded. */
  function InitialSelection(): (sel: string)
    ensures sel == Offices()[0].id && sel == "cri"
  {
    Offices()[0].id
  }

  predicate IsSelected(sel: string, o: Office)
  {
    sel == o.id
  }

  /** Hovering a desktop column expands that office, whatever was open. */
  function Hover(sel: string, o: Office): (r: string)
    ensures IsSelected(r, o)
  {
    o.id
  }

  /** Tapping a mobile row: the open office closes, any other opens. */
  function Tap(sel: string, o: Office): (r: string)
    ensures IsSelected(sel, o) ==> r == ""
    ensures !IsSelected(sel, o) ==> IsSelected(r, o)
  {
    if IsSelected(sel, o) then "" else o.id
  }

  /** A tap toggles the tapped office, and tapping it twice restores "nothing open". */
  lemma TapToggles(sel: string, o: Office)
    requires o.id != ""
    ensures IsSelected(Tap(sel, o), o) <==> !IsSelected(sel, o)
    ensures IsSelected(sel, o) ==> Tap(Tap(sel, o), o) == sel
    ensures sel == "" ==> Tap(Tap(sel, o), o) == ""
  {
  }

  /** How many offices of `os` are drawn expanded. */
  function ExpandedCount(os: seq<Office>, sel: string): nat
    decreases |os|
  {
    if |os| == 0 then 0
    else (if IsSelected(sel, os[0]) then 1 else 0) + ExpandedCount(os[1..], sel)
  }

  lemma {:induction false} NoneExpanded(os: seq<Office>, sel: string)
    requires forall i :: 0 <= i < |os| ==> os[i].id != sel
    ensures ExpandedCount(os, sel) == 0
    decreases |os|
  {
    if |os| > 0 {
      NoneExpanded(os[1..], sel);
    }
  }

  /** At most one office is expanded, exactly one when the selection names an office. */
  lemma {:induction false} AtMostOneExpanded(os: seq<Office>, sel: string)
    requires WellKeyed(os)
    ensures ExpandedCount(os, sel) <= 1
    ensures ExpandedCount(os, sel) == 1 <==> exists i :: 0 <= i < |os| && os[i].id == sel
    ensures sel == "" ==> ExpandedCount(os, sel) == 0
    decreases |os|
  {
    if |os| > 0 {
      if os[0].id == sel {
        NoneExpanded(os[1..], sel);
      } else {
        AtMostOneExpanded(os[1..], sel);
        if exists i :: 0 <= i < |os[1..]| && os[1..][i].id == sel {
          var i :| 0 <= i < |os[1..]| && os[1..][i].id == sel;
          assert os[i + 1].id == sel;
        }
      }
    }
  }

  /** The characters JavaScript's `\s` matches. */
  predicate IsSpace(c: char)
  {
    var n := c as int;
    || n == 0x09 || n == 0x0A || n == 0x0B || n == 0x0C || n == 0x0D || n == 0x20
    || n == 0xA0 || n == 0x1680 || (0x2000 <= n <= 0x200A) || n == 0x2028 || n == 0x2029
    || n == 0x202F || n == 0x205F || n == 0x3000 || n == 0xFEFF
  }

  /** `s.replace(/\s+/g, '')`: the string with every white-space character dropped. */
  function StripSpaces(s: string): (r: string)
    ensures |r| <= |s|
    ensures forall i :: 0 <= i < |r| ==> !IsSpace(r[i])
    ensures (forall i :: 0 <= i < |s| ==> !IsSpace(s[i])) ==> r == s
    // a lone white-space character is deleted, not replaced
    ensures |s| == 1 && IsSpace(s[0]) ==> r == ""
    decreases |s|
  {
    if |s| == 0 then ""
    else if IsSpace(s[0]) then StripSpaces(s[1..])
    else [s[0]] + StripSpaces(s[1..])
  }

  /** Stripping splits over concatenation. */
  lemma {:induction false} StripSpacesConcat(a: string, b: string)
    ensures StripSpaces(a + b) == StripSpaces(a) + StripSpaces(b)
    decreases |a|
  {
    if |a| == 0 {
      assert a + b == b;
    } else {
      assert (a + b)[0] == a[0];
      assert (a + b)[1..] == a[1..] + b;
      StripSpacesConcat(a[1..], b);
      if !IsSpace(a[0]) {
        assert [a[0]] + (StripSpaces(a[1..]) + StripSpaces(b)) == ([a[0]] + StripSpaces(a[1..])) + StripSpaces(b);
      }
    }
  }

  /** Stripping twice is stripping once. */
  lemma StripSpacesIdempotent(s: string)
    ensures StripSpaces(StripSpaces(s)) == StripSpaces(s)
  {
  }

  const TelScheme: string := "tel:"
  const MailScheme: string := "mailto:"

  /** The dial link: the scheme, then the number without white space. */
  function TelHref(o: Office): (href: string)
    ensures |href| >= |TelScheme| && href[..|TelScheme|] == TelScheme
    ensures href[|TelScheme|..] == StripSpaces(o.phone)
    ensures forall i :: |TelScheme| <= i < |href| ==> !IsSpace(href[i])
  {
    TelScheme + StripSpaces(o.phone)
  }

  /** The mail link: the scheme, then the address verbatim. */
  function MailHref(o: Office): (href: string)
    ensures |href| >= |MailScheme| && href[..|MailScheme|] == MailScheme && href[|MailScheme|..] == o.email
  {
    MailScheme + o.email
  }

  /** A number written as country code, one space, local part dials both parts run together. */
  lemma {:induction false} StripOneSpace(country: string, local: string)
    requires forall i :: 0 <= i < |country| ==> !IsSpace(country[i])
    requires forall i :: 0 <= i < |local| ==> !IsSpace(local[i])
    ensures StripSpaces(country + " " + local) == country + local
  {
    StripSpacesConcat(country + " ", local);
    StripSpacesConcat(country, " ");
    assert StripSpaces(" ") == "";
  }

  /** The Costa Rica office dials its country code and local number run together. */
  lemma CostaRicaTel()
    ensures TelHref(Offices()[0]) == TelScheme + "+506" + "4110-6000"
  {
    var country, local := "+506", "4110-6000";
    var phone := Offices()[0].phone;
    assert phone == country + " " + local;
    assert StripSpaces(phone) == country + local by {
      assert forall i :: 0 <= i < |country| ==> !IsSpace(country[i]);
      assert forall i :: 0 <= i < |local| ==> !IsSpace(local[i]);
      StripOneSpace(country, local);
    }
    assert TelScheme + (country + local) == TelScheme + country + local;
  }
}
