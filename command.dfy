/**
  The text command the phone app writes to the server's characteristic,
  START_GAME:ELO:<elo>:TIME:<minutes>, and the way on_write reads it:
  split on ':' and convert fields 2 and 4 with int().
*/
module Command {
  import opened Wrappers
  import opened Decimal

  /** The only payloads on_write acts on start with this text. */
  const Prefix: string := "START_GAME:ELO:"

  predicate StartsWith(s: string, prefix: string) {
    |prefix| <= |s| && s[..|prefix|] == prefix
  }

  predicate NoSeparator(fields: seq<string>) {
    forall i :: 0 <= i < |fields| ==> ':' !in fields[i]
  }

  /** ':'.join(fields) */
  function Join(fields: seq<string>): string
    requires 1 <= |fields|
  {
    if |fields| == 1 then fields[0] else fields[0] + ":" + Join(fields[1..])
  }

  /**
    s.split(":"): the maximal ':'-free pieces of s, in order, so that
    joining them with ':' gives s back. An empty string yields [""].
  */
  function Split(s: string): (fields: seq<string>)
    ensures 1 <= |fields| && NoSeparator(fields)
    ensures Join(fields) == s
  {
    if |s| == 0 then [""]
    else
      var rest := Split(s[1..]);
      if s[0] == ':' then
        assert ([""] + rest)[1..] == rest;
        [""] + rest
      else
        var fields := [[s[0]] + rest[0]] + rest[1..];
        assert fields[1..] == rest[1..];
        fields
  }

  lemma {:induction false} SplitSeparated(a: string, b: string)
    requires ':' !in a
    ensures Split(a + ":" + b) == [a] + Split(b)
  {
    if a == [] {
      assert (a + ":" + b)[1..] == b;
    } else {
      assert (a + ":" + b)[1..] == a[1..] + ":" + b;
      SplitSeparated(a[1..], b);
      assert [a[0]] + a[1..] == a;
    }
  }

  lemma {:induction false} SplitUnseparated(a: string)
    requires ':' !in a
    ensures Split(a) == [a]
  {
    if a != [] {
      SplitUnseparated(a[1..]);
      assert [a[0]] + a[1..] == a;
    }
  }

  /** Splitting undoes joining when no field contains the separator. */
  lemma {:induction false} SplitJoin(fields: seq<string>)
    requires 1 <= |fields| && NoSeparator(fields)
    ensures Split(Join(fields)) == fields
  {
    if |fields| == 1 {
      SplitUnseparated(fields[0]);
    } else {
      SplitSeparated(fields[0], Join(fields[1..]));
      SplitJoin(fields[1..]);
      assert [fields[0]] + fields[1..] == fields;
    }
  }

  /**
    The parse in on_write: None when the payload does not start with
    Prefix, when split(":") gives fewer than five fields (IndexError), or
    when field 2 or field 4 is not an integer (ValueError); otherwise
    (elo, minutes). Field 3 is never looked at and further fields are
    ignored.
  */
  function ParseStartCommand(data: string): (r: Option<(int, int)>)
    ensures !StartsWith(data, Prefix) ==> r == None
    ensures |Split(data)| < 5 ==> r == None
    ensures r.Some? ==> ParseInt(Split(data)[2]) == Some(r.value.0)
    ensures r.Some? ==> ParseInt(Split(data)[4]) == Some(r.value.1)
  {
    if !StartsWith(data, Prefix) then None
    else
      var parts := Split(data);
      if |parts| < 5 then None
      else
        match (ParseInt(parts[2]), ParseInt(parts[4]))
        case (Some(elo), Some(minutes)) => Some((elo, minutes))
        case _ => None
  }

  lemma HeadFieldsGivePrefix(fields: seq<string>)
    requires 3 <= |fields|
    requires fields[0] == "START_GAME" && fields[1] == "ELO"
    ensures StartsWith(Join(fields), Prefix)
  {
    var data := Join(fields);
    assert fields[1..][1..] == fields[2..];
    assert Join(fields[1..]) == "ELO" + ":" + Join(fields[2..]);
    assert data == "START_GAME" + ":" + ("ELO" + ":" + Join(fields[2..]));
    assert data == Prefix + Join(fields[2..]);
    assert data[..|Prefix|] == Prefix;
  }

  /** Every payload on_write accepts begins with the fields START_GAME and ELO. */
  lemma PrefixGivesHeadFields(data: string)
    requires StartsWith(data, Prefix)
    ensures 3 <= |Split(data)|
    ensures Split(data)[0] == "START_GAME" && Split(data)[1] == "ELO"
  {
    var rest := data[|Prefix|..];
    assert data == "START_GAME" + ":" + ("ELO" + ":" + rest);
    SplitSeparated("START_GAME", "ELO" + ":" + rest);
    SplitSeparated("ELO", rest);
  }

  /**
    A payload of at least five ':'-separated fields beginning
    START_GAME, ELO parses exactly when fields 2 and 4 are integers,
    whatever field 3 and the trailing fields hold.
  */
  lemma ParseFields(fields: seq<string>)
    requires 5 <= |fields| && NoSeparator(fields)
    requires fields[0] == "START_GAME" && fields[1] == "ELO"
    ensures ParseStartCommand(Join(fields)) ==
      if ParseInt(fields[2]).Some? && ParseInt(fields[4]).Some?
      then Some((ParseInt(fields[2]).value, ParseInt(fields[4]).value))
      else None
  {
    HeadFieldsGivePrefix(fields);
    SplitJoin(fields);
  }

  /** The phone app's template reads back as the values it was built from. */
  lemma ParseFormatted(elo: int, minutes: int)
    ensures ParseStartCommand(Prefix + IntToString(elo) + ":TIME:" + IntToString(minutes))
            == Some((elo, minutes))
  {
    var fields := ["START_GAME", "ELO", IntToString(elo), "TIME", IntToString(minutes)];
    var e, m := IntToString(elo), IntToString(minutes);
    assert fields[1..][1..] == fields[2..] && fields[2..][1..] == fields[3..] && fields[3..][1..] == [m];
    assert Join(fields[3..]) == "TIME:" + m;
    assert Join(fields[2..]) == e + ":TIME:" + m;
    assert Join(fields) == Prefix + e + ":TIME:" + m;
    ParseFields(fields);
    ParseIntOfIntToString(elo);
    ParseIntOfIntToString(minutes);
  }

  /** A payload with the prefix but a non-integer elo field is ignored. */
  lemma ParseRejectsBadElo(fields: seq<string>)
    requires 5 <= |fields| && NoSeparator(fields)
    requires fields[0] == "START_GAME" && fields[1] == "ELO"
    requires !IsIntLiteral(fields[2])
    ensures StartsWith(Join(fields), Prefix)
    ensures ParseStartCommand(Join(fields)) == None
  {
    ParseFields(fields);
    assert Join(fields)[..|Prefix|] == Prefix;
  }
}
