/** The messages `validate_booking_data` builds from its key names:
    `field.replace('_', ' ').title() + " is required"`. Title-casing is
    modelled on ASCII letters. */
module FieldTitles {
  predicate IsUpper(c: char) { 'A' <= c <= 'Z' }
  predicate IsLower(c: char) { 'a' <= c <= 'z' }
  predicate IsLetter(c: char) { IsUpper(c) || IsLower(c) }

  function ToUpper(c: char): (u: char)
    ensures IsLetter(c) ==> IsUpper(u) && ToLower(u) == ToLower(c)
  {
    if IsLower(c) then (c as int - 32) as char else c
  }

  function ToLower(c: char): (l: char)
    ensures IsLetter(c) ==> IsLower(l)
    ensures !IsLetter(c) ==> l == c
  {
    if IsUpper(c) then (c as int + 32) as char else c
  }

  /** `field.replace('_', ' ')` */
  function ReplaceUnderscores(s: string): (r: string)
    ensures |r| == |s|
  {
    seq(|s|, i requires 0 <= i < |s| => if s[i] == '_' then ' ' else s[i])
  }

  /** `str.title()`: a letter that follows a letter is lower-cased, any
      other letter upper-cased; everything else is kept. */
  function Title(s: string): (r: string)
    ensures |r| == |s|
  {
    seq(|s|, i requires 0 <= i < |s| =>
      if !IsLetter(s[i]) then s[i]
      else if i > 0 && IsLetter(s[i - 1]) then ToLower(s[i])
      else ToUpper(s[i]))
  }

  /** Title-casing only changes letter case, and a letter ends up upper
      case exactly when it starts a word. */
  lemma TitleCases(s: string)
    ensures forall i | 0 <= i < |s| :: ToLower(Title(s)[i]) == ToLower(s[i])
    ensures forall i | 0 <= i < |s| && IsLetter(s[i]) ::
              IsUpper(Title(s)[i]) <==> (i == 0 || !IsLetter(s[i - 1]))
  {
    forall i | 0 <= i < |s|
      ensures ToLower(Title(s)[i]) == ToLower(s[i])
      ensures IsLetter(s[i]) ==> (IsUpper(Title(s)[i]) <==> (i == 0 || !IsLetter(s[i - 1])))
    {
      if IsLetter(s[i]) && i > 0 && IsLetter(s[i - 1]) {
        assert Title(s)[i] == ToLower(s[i]);
      }
    }
  }

  /** Title-casing is idempotent. */
  lemma TitleIdempotent(s: string)
    ensures Title(Title(s)) == Title(s)
  {
    var t := Title(s);
    forall i | 0 <= i < |s| ensures Title(t)[i] == t[i] {
      assert IsLetter(t[i]) == IsLetter(s[i]);
      assert i > 0 ==> IsLetter(t[i - 1]) == IsLetter(s[i - 1]);
    }
  }

  function FieldTitle(field: string): string {
    Title(ReplaceUnderscores(field))
  }

  function RequiredMessage(field: string): (m: string)
    ensures m != ""
  {
    FieldTitle(field) + " is required"
  }

  /** Two underscore-free names joined by `_` become two words. */
  lemma ReplaceJoin(u: string, v: string)
    requires forall i | 0 <= i < |u| :: u[i] != '_'
    requires forall i | 0 <= i < |v| :: v[i] != '_'
    ensures ReplaceUnderscores(u + "_" + v) == u + " " + v
  {
    var s := u + "_" + v;
    var r := u + " " + v;
    forall i | 0 <= i < |s| ensures ReplaceUnderscores(s)[i] == r[i] {
      if i < |u| {
        assert s[i] == u[i] && r[i] == u[i];
      } else if i > |u| {
        assert s[i] == v[i - |u| - 1] && r[i] == v[i - |u| - 1];
      }
    }
  }

  /** Words separated by a space are title-cased independently. */
  lemma TitleJoin(u: string, v: string)
    ensures Title(u + " " + v) == Title(u) + " " + Title(v)
  {
    var s := u + " " + v;
    var r := Title(u) + " " + Title(v);
    forall i | 0 <= i < |s| ensures Title(s)[i] == r[i] {
      if i < |u| {
        assert s[i] == u[i];
        if i > 0 { assert s[i - 1] == u[i - 1]; }
      } else if i > |u| {
        var j := i - |u| - 1;
        assert s[i] == v[j] && r[i] == Title(v)[j];
        if j > 0 { assert s[i - 1] == v[j - 1]; }
      }
    }
  }

  /** A lower-case word gets its first letter capitalised. */
  lemma TitleWord(w: string)
    requires |w| > 0 && forall i | 0 <= i < |w| :: IsLower(w[i])
    ensures Title(w) == [ToUpper(w[0])] + w[1..]
  {
    var r := [ToUpper(w[0])] + w[1..];
    forall i | 0 <= i < |w| ensures Title(w)[i] == r[i] {
      if i > 0 {
        assert IsLetter(w[i - 1]);
        assert r[i] == w[i];
      }
    }
  }

  /** A field name of two lower-case words joined by `_` becomes those
      words capitalised and separated by a space. */
  lemma TwoWordTitle(u: string, v: string)
    requires |u| > 0 && forall i | 0 <= i < |u| :: IsLower(u[i])
    requires |v| > 0 && forall i | 0 <= i < |v| :: IsLower(v[i])
    ensures FieldTitle(u + "_" + v) == [ToUpper(u[0])] + u[1..] + " " + [ToUpper(v[0])] + v[1..]
  {
    ReplaceJoin(u, v);
    TitleJoin(u, v);
    TitleWord(u);
    TitleWord(v);
  }

  lemma RoomTypeTitle()
    ensures FieldTitle("room_type") == "Room Type"
  {
    assert "room_type" == "room" + "_" + "type";
    TwoWordTitle("room", "type");
  }

  /** `"room_type"` becomes `"Room Type is required"`. */
  lemma RoomTypeMessage()
    ensures RequiredMessage("room_type") == "Room Type is required"
  {
    RoomTypeTitle();
  }

  lemma CheckinDateTitle()
    ensures FieldTitle("checkin_date") == "Checkin Date"
  {
    assert "checkin_date" == "checkin" + "_" + "date";
    TwoWordTitle("checkin", "date");
  }

  /** `"checkin_date"` becomes `"Checkin Date is required"`. */
  lemma CheckinDateMessage()
    ensures RequiredMessage("checkin_date") == "Checkin Date is required"
  {
    CheckinDateTitle();
  }

  /** `"name"` becomes `"Name is required"`. */
  lemma NameMessage()
    ensures RequiredMessage("name") == "Name is required"
  {
    assert ReplaceUnderscores("name") == "name";
    TitleWord("name");
    assert FieldTitle("name") == "Name";
  }
}
