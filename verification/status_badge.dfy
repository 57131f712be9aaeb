/** The status badge: an icon and a human-readable label for a status string, and the
    colour classes for a badge variant. */
module StatusBadge {
  import opened Text

  /** The badge colour variants. */
  datatype Variant = Success | Warning | Error | Secondary

  datatype Icon = CheckCircle | Clock | Brain | XCircle | AlertTriangle

  /** The icon before the label; any status not listed gets the clock. */
  function StatusIcon(status: string): (i: Icon)
    ensures i == CheckCircle <==> status == "approved" || status == "verified"
    ensures i == Brain <==> status == "ai_review"
    ensures i == XCircle <==> status == "rejected"
    ensures i == AlertTriangle <==> status == "needs_review"
    ensures i == Clock <==> status !in {"approved", "verified", "ai_review", "rejected", "needs_review"}
  {
    match status
    case "approved" => CheckCircle
    case "pending" => Clock
    case "ai_review" => Brain
    case "rejected" => XCircle
    case "needs_review" => AlertTriangle
    case "verified" => CheckCircle
    case _ => Clock
  }

  /** The label for a status not in the fixed table: the first character upper-cased
      and the first underscore after it turned into a space. */
  function DefaultLabel(status: string): (r: string)
    ensures |r| == |status|
    ensures |status| > 0 ==> r[0] == UpperChar(status[0])
  {
    if |status| == 0 then "" else [UpperChar(status[0])] + ReplaceFirst(status[1..], '_', ' ')
  }

  /** After the first character, the default label differs from the status only at the
      first underscore, which becomes a space. */
  lemma DefaultLabelPointwise(status: string)
    ensures forall i :: 1 <= i < |status| ==>
      DefaultLabel(status)[i] == (if status[i] == '_' && '_' !in status[1..i] then ' ' else status[i])
  {
    forall i | 1 <= i < |status|
      ensures DefaultLabel(status)[i]
           == (if status[i] == '_' && '_' !in status[1..i] then ' ' else status[i])
    {
      ReplaceFirstPointwise(status[1..], '_', ' ', i - 1);
      assert status[1..][..i - 1] == status[1..i];
    }
  }

  function StatusText(status: string): (r: string)
    ensures |r| == 0 <==> |status| == 0
  {
    match status
    case "approved" => "Approved"
    case "pending" => "Pending"
    case "ai_review" => "AI Review"
    case "rejected" => "Rejected"
    case "needs_review" => "Needs Review"
    case "verified" => "Verified"
    case _ => DefaultLabel(status)
  }

  /** A status written in lower-case letters and underscores. */
  predicate Snake(status: string) {
    forall i :: 0 <= i < |status| ==> 'a' <= status[i] <= 'z' || status[i] == '_'
  }

  /** Reads a label back: lower-case every letter and turn every space into an underscore. */
  function Unlabel(shown: string): (r: string)
    ensures |r| == |shown|
    ensures forall i :: 0 <= i < |shown| ==>
      r[i] == (if shown[i] == ' ' then '_' else LowerChar(shown[i]))
  {
    seq(|shown|, i requires 0 <= i < |shown| => if shown[i] == ' ' then '_' else LowerChar(shown[i]))
  }

  /** Every label of a snake-case status reads back to that status; in particular no two
      such statuses share a label. */
  lemma StatusTextReadsBack(status: string)
    requires Snake(status)
    ensures Unlabel(StatusText(status)) == status
  {
    var r := StatusText(status);
    if status !in {"approved", "pending", "ai_review", "rejected", "needs_review", "verified"} {
      assert r == DefaultLabel(status);
      DefaultLabelPointwise(status);
      forall i | 0 <= i < |status| ensures Unlabel(r)[i] == status[i] {
        if i > 0 && status[i] == '_' && '_' !in status[1..i] {
          assert r[i] == ' ';
        }
      }
    }
  }

  /** The default label splits the status at its first underscore after the first
      character: that underscore becomes a space, every later one is kept. */
  lemma DefaultLabelAt(status: string, k: nat)
    requires 1 <= k < |status| && status[k] == '_' && '_' !in status[1..k]
    ensures DefaultLabel(status) == [UpperChar(status[0])] + status[1..k] + " " + status[k + 1..]
  {
    assert status[1..][..k - 1] == status[1..k];
    ReplaceFirstAt(status[1..], '_', ' ', k - 1);
    assert status[1..][k..] == status[k + 1..];
  }

  /** The status the contract list offers for "need more information", which is not in
      the table, is shown with only its first underscore turned into a space. */
  lemma NeedsMoreInformationLabel(s: string)
    requires s == "needs_more_information"
    ensures StatusText(s) == "Needs more_information"
  {
    OutsideTable(s);
    FirstUnderscore(s);
    DefaultLabelAt(s, 5);
  }

  lemma OutsideTable(s: string)
    requires s == "needs_more_information"
    ensures StatusText(s) == DefaultLabel(s)
  {
    assert |s| == 22;
  }

  lemma FirstUnderscore(s: string)
    requires s == "needs_more_information"
    ensures s[5] == '_' && '_' !in s[1..5]
    ensures [UpperChar(s[0])] + s[1..5] + " " + s[6..] == "Needs more_information"
  {
    assert s[1..5] == "eeds";
    assert s[6..] == "more_information";
  }

  /** An empty status gets an empty label. */
  lemma EmptyStatusLabel()
    ensures StatusText("") == ""
  {
  }

  function Colour(v: Variant): string {
    match v
    case Success => "green"
    case Warning => "yellow"
    case Error => "red"
    case Secondary => "gray"
  }

  /** The background, text and hover classes of one colour. */
  function ColourClasses(colour: string): string {
    "bg-" + colour + "-100 text-" + colour + "-700 hover:bg-" + colour + "-200"
  }

  /** `success` green, `warning` yellow, `error` red, anything else grey. */
  function VariantClass(v: Variant): (r: string)
    ensures v == Success ==> r == "bg-green-100 text-green-700 hover:bg-green-200"
    ensures v == Warning ==> r == "bg-yellow-100 text-yellow-700 hover:bg-yellow-200"
    ensures v == Error ==> r == "bg-red-100 text-red-700 hover:bg-red-200"
    ensures v == Secondary ==> r == "bg-gray-100 text-gray-700 hover:bg-gray-200"
  {
    match v
    case Success => ClassesSpelledGreen(); ColourClasses(Colour(v))
    case Warning => ClassesSpelledYellow(); ColourClasses(Colour(v))
    case Error => ClassesSpelledRed(); ColourClasses(Colour(v))
    case Secondary => ClassesSpelledGray(); ColourClasses(Colour(v))
  }

  // The colour classes written out in full. Each equation is joined one piece at a
  // time: comparing the whole literals at once is beyond the solver's budget.

  lemma ClassesSpelledGreen()
    ensures ColourClasses("green") == "bg-green-100 text-green-700 hover:bg-green-200"
  {
    var c := "green";
    assert "bg-" + c + "-100 text-" == "bg-green-100 text-";
    assert "bg-" + c + "-100 text-" + c == "bg-green-100 text-green";
    assert "bg-" + c + "-100 text-" + c + "-700 hover:bg-" == "bg-green-100 text-green-700 hover:bg-";
    assert "bg-" + c + "-100 text-" + c + "-700 hover:bg-" + c
      == "bg-green-100 text-green-700 hover:bg-green";
  }

  lemma ClassesSpelledYellow()
    ensures ColourClasses("yellow") == "bg-yellow-100 text-yellow-700 hover:bg-yellow-200"
  {
    var c := "yellow";
    assert "bg-" + c + "-100 text-" == "bg-yellow-100 text-";
    assert "bg-" + c + "-100 text-" + c == "bg-yellow-100 text-yellow";
    assert "bg-" + c + "-100 text-" + c + "-700 hover:bg-" == "bg-yellow-100 text-yellow-700 hover:bg-";
    assert "bg-" + c + "-100 text-" + c + "-700 hover:bg-" + c
      == "bg-yellow-100 text-yellow-700 hover:bg-yellow";
  }

  lemma ClassesSpelledRed()
    ensures ColourClasses("red") == "bg-red-100 text-red-700 hover:bg-red-200"
  {
    var c := "red";
    assert "bg-" + c + "-100 text-" == "bg-red-100 text-";
    assert "bg-" + c + "-100 text-" + c == "bg-red-100 text-red";
    assert "bg-" + c + "-100 text-" + c + "-700 hover:bg-" == "bg-red-100 text-red-700 hover:bg-";
    assert "bg-" + c + "-100 text-" + c + "-700 hover:bg-" + c
      == "bg-red-100 text-red-700 hover:bg-red";
  }

  lemma ClassesSpelledGray()
    ensures ColourClasses("gray") == "bg-gray-100 text-gray-700 hover:bg-gray-200"
  {
    var c := "gray";
    assert "bg-" + c + "-100 text-" == "bg-gray-100 text-";
    assert "bg-" + c + "-100 text-" + c == "bg-gray-100 text-gray";
    assert "bg-" + c + "-100 text-" + c + "-700 hover:bg-" == "bg-gray-100 text-gray-700 hover:bg-";
    assert "bg-" + c + "-100 text-" + c + "-700 hover:bg-" + c
      == "bg-gray-100 text-gray-700 hover:bg-gray";
  }

  /** Different variants are told apart by their classes. */
  lemma VariantClassDistinct(v: Variant, w: Variant)
    requires v != w
    ensures VariantClass(v) != VariantClass(w)
  {
    ColourClassesDistinct(Colour(v), Colour(w));
  }

  /** Colours that differ in their first or third letter give different classes. */
  lemma ColourClassesDistinct(c: string, d: string)
    requires |c| >= 3 && |d| >= 3
    requires c[0] != d[0] || c[2] != d[2]
    ensures ColourClasses(c) != ColourClasses(d)
  {
    assert ColourClasses(c)[3] == c[0] && ColourClasses(c)[5] == c[2];
    assert ColourClasses(d)[3] == d[0] && ColourClasses(d)[5] == d[2];
  }
}
