/**
  The readiness gate of `send_alarm_email` and the recipient list it
  builds. What happens after the gate (MIME composition, the SMTP
  session and its error classification) is the mail transport and is not
  part of this model: an accepted alert is handed over as an `Alert` value.
*/
module Notify {
  import opened Wrappers
  import Text

  /** The single `EmailConfig` row. */
  datatype EmailConfig = EmailConfig(
    senderEmail: string,
    appPassword: string,
    recipientEmails: string,  // comma separated
    isConfigured: bool)

  /** What is handed to the mail transport when an alarm goes off. */
  datatype Alert = Alert(sender: string, recipients: seq<string>, durationSeconds: int)

  /** The email is attempted only when a configuration row exists, is marked
      configured, and has a non-empty sender, password and recipient list. */
  predicate Ready(config: Option<EmailConfig>) {
    && config.Some?
    && config.value.isConfigured
    && config.value.senderEmail != ""
    && config.value.appPassword != ""
    && config.value.recipientEmails != ""
  }

  /** `[email.strip() for email in text.split(',')]`: one address per comma
      separated piece (empty pieces included), each without surrounding
      whitespace and without a comma. */
  function ParseRecipients(text: string): seq<string> {
    StripAll(Text.Split(text, ','))
  }

  /** `[p.strip() for p in pieces]`. */
  function StripAll(pieces: seq<string>): seq<string>
    decreases |pieces|
  {
    if pieces == [] then [] else [Text.Strip(pieces[0])] + StripAll(pieces[1..])
  }

  /** Each piece stripped, in place. */
  lemma {:induction false} StripAllShape(pieces: seq<string>)
    ensures |StripAll(pieces)| == |pieces|
    ensures forall i :: 0 <= i < |pieces| ==> StripAll(pieces)[i] == Text.Strip(pieces[i])
    decreases |pieces|
  {
    if pieces != [] {
      StripAllShape(pieces[1..]);
    }
  }

  /** One address per comma-separated piece, that piece stripped, and no
      address holds a comma. */
  lemma RecipientsShape(text: string)
    ensures var rs := ParseRecipients(text);
      && |rs| == |Text.Split(text, ',')| == Text.Occurrences(text, ',') + 1
      && (forall i :: 0 <= i < |rs| ==> rs[i] == Text.Strip(Text.Split(text, ',')[i]))
      && (forall i :: 0 <= i < |rs| ==> ',' !in rs[i])
  {
    var pieces := Text.Split(text, ',');
    Text.SplitLength(text, ',');
    StripAllShape(pieces);
    var rs := ParseRecipients(text);
    forall i | 0 <= i < |rs| ensures ',' !in rs[i] {
      StripKeepsOut(pieces[i], ',');
    }
  }

  /** Stripping never introduces a character that was not there. */
  lemma StripKeepsOut(s: string, c: char)
    requires c !in s
    ensures c !in Text.Strip(s)
  {
    Text.TrimShape(s, Text.ForStrip);
    var r := Text.Strip(s);
    var i := |s| - |Text.TrimStart(s, Text.ForStrip)|;
    forall k | 0 <= k < |r| ensures r[k] != c {
      assert r[k] == s[i + k];
    }
  }

  /** `send_alarm_email(duration)`: the alert handed to the transport, or
      None when the gate is closed. */
  function AlarmEmail(config: Option<EmailConfig>, duration: int): (r: Option<Alert>)
    ensures r.Some? <==> Ready(config)
    ensures r.Some? ==> r.value.sender == config.value.senderEmail
    ensures r.Some? ==> r.value.recipients == ParseRecipients(config.value.recipientEmails)
    ensures r.Some? ==> r.value.durationSeconds == duration
  {
    if !Ready(config) then None
    else Some(Alert(config.value.senderEmail, ParseRecipients(config.value.recipientEmails), duration))
  }

  /** Neither starts nor ends with whitespace (the empty string included). */
  predicate Trimmed(s: string) {
    s == [] || (!Text.IsSpace(s[0]) && !Text.IsSpace(s[|s| - 1]))
  }

  /** A trimmed string is its own strip. */
  lemma StripTrimmed(s: string)
    requires Trimmed(s)
    ensures Text.Strip(s) == s
  {
    if s != [] {
      Text.TrimUntouched(s, Text.ForStrip);
    }
  }

  /** A recipient list typed as addresses joined by commas is read back as
      exactly those addresses, provided none of them holds a comma or
      surrounding whitespace. */
  lemma RecipientsRoundTrip(addresses: seq<string>)
    requires addresses != []
    requires forall i :: 0 <= i < |addresses| ==> ',' !in addresses[i]
    requires forall i :: 0 <= i < |addresses| ==> Trimmed(addresses[i])
    ensures ParseRecipients(Text.Join(addresses, ',')) == addresses
  {
    var text := Text.Join(addresses, ',');
    Text.SplitJoin(addresses, ',');
    var pieces := Text.Split(text, ',');
    assert pieces == addresses;
    var rs := ParseRecipients(text);
    RecipientsShape(text);
    assert |rs| == |addresses|;
    forall i | 0 <= i < |addresses| ensures rs[i] == addresses[i] {
      StripTrimmed(addresses[i]);
      assert rs[i] == Text.Strip(pieces[i]);
    }
  }

  /** A trailing comma yields an empty recipient at the end of the list. */
  lemma TrailingCommaGivesEmptyRecipient(text: string)
    ensures var rs := ParseRecipients(text + ",");
            rs[|rs| - 1] == ""
  {
    var pieces := Text.Split(text + ",", ',');
    TrailingSeparator(text, ',');
    var rs := ParseRecipients(text + ",");
    RecipientsShape(text + ",");
    assert rs[|rs| - 1] == Text.Strip(pieces[|pieces| - 1]);
    assert Text.Strip("") == "";
  }

  /** The last piece of `s + sep` split on `sep` is empty. */
  lemma {:induction false} TrailingSeparator(s: string, sep: char)
    ensures var pieces := Text.Split(s + [sep], sep); pieces[|pieces| - 1] == ""
    decreases |s|
  {
    var t := s + [sep];
    if s == [] {
      assert t[1..] == [];
    } else {
      assert t[1..] == s[1..] + [sep];
      TrailingSeparator(s[1..], sep);
      var rest := Text.Split(s[1..] + [sep], sep);
      assert |rest| >= 2 by {
        Text.SplitLength(s[1..] + [sep], sep);
        OccurrencesAppend(s[1..], sep);
      }
    }
  }

  lemma {:induction false} OccurrencesAppend(s: string, c: char)
    ensures Text.Occurrences(s + [c], c) == Text.Occurrences(s, c) + 1
    decreases |s|
  {
    if s != [] {
      assert (s + [c])[1..] == s[1..] + [c];
      OccurrencesAppend(s[1..], c);
    }
  }
}
