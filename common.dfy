/**
 * Values and small string rules shared by the plugin's modules: an optional
 * value, the dynamically typed values that travel through the SCORM JSON
 * handlers, Python truthiness, a content location, and the rule that makes a
 * storage URL absolute.
 */
module Common {

  /** None stands for Python's `None` (or an absent key). */
  datatype Option<+T> = None | Some(value: T) {
    function GetOr(default: T): T {
      match this
      case Some(v) => v
      case None => default
    }
  }

  /** The JSON-like values a SCORM package sends to the block and that the
      block keeps in its `scorm_data` dictionary. */
  datatype Value = VNull | VStr(s: string) | VNum(n: real) | VBool(b: bool)

  /** Python truthiness of a value: `None`, `""`, `0` and `False` are false. */
  predicate Truthy(v: Value) {
    match v
    case VNull => false
    case VStr(s) => s != ""
    case VNum(n) => n != 0.0
    case VBool(b) => b
  }

  /** Python's `s.startswith(p)`. */
  predicate StartsWith(s: string, p: string) {
    |p| <= |s| && s[..|p|] == p
  }

  /** An XBlock usage location: the four parts both content blocks put in their
      storage paths. */
  datatype Location = Location(org: string, course: string, blockType: string, blockId: string)

  /** The directory both content blocks store their packages under:
      `"{org}/{course}/{block_type}/{block_id}/"`. */
  function BaseStoragePath(loc: Location): (r: string)
    ensures |r| > 0 && r[|r| - 1] == '/'
    ensures StartsWith(r, loc.org + "/")
  {
    loc.org + "/" + loc.course + "/" + loc.blockType + "/" + loc.blockId + "/"
  }

  /** The rule of both blocks' `student_view_data`: a storage URL that does not
      start with `http` is prefixed with the LMS root URL. */
  function AbsoluteUrl(storageUrl: string, lmsRootUrl: string): (r: string)
  {
    if StartsWith(storageUrl, "http") then storageUrl else lmsRootUrl + storageUrl
  }

  /** The URL a client receives is always an absolute one (it starts with `http`)
      when the LMS root is, and in every case it ends with the storage URL. */
  lemma AbsoluteUrlShape(storageUrl: string, lmsRootUrl: string)
    ensures var r := AbsoluteUrl(storageUrl, lmsRootUrl);
      && |r| >= |storageUrl| && r[|r| - |storageUrl|..] == storageUrl
      && (StartsWith(lmsRootUrl, "http") ==> StartsWith(r, "http"))
      && (r == storageUrl <==> StartsWith(storageUrl, "http") || lmsRootUrl == "")
  {
    var r := AbsoluteUrl(storageUrl, lmsRootUrl);
    if !StartsWith(storageUrl, "http") {
      assert r == lmsRootUrl + storageUrl;
      assert r[|r| - |storageUrl|..] == storageUrl;
      if StartsWith(lmsRootUrl, "http") {
        assert r[..4] == lmsRootUrl[..4];
      }
    }
  }

  /** Making a URL absolute twice changes nothing more, when the LMS root itself
      starts with `http`. */
  lemma AbsoluteUrlIdempotent(storageUrl: string, lmsRootUrl: string)
    requires StartsWith(lmsRootUrl, "http")
    ensures AbsoluteUrl(AbsoluteUrl(storageUrl, lmsRootUrl), lmsRootUrl) == AbsoluteUrl(storageUrl, lmsRootUrl)
  {
    var r := AbsoluteUrl(storageUrl, lmsRootUrl);
    if !StartsWith(storageUrl, "http") {
      assert r[..4] == lmsRootUrl[..4];
    }
  }

  /** The number of occurrences of character `c` in `s`. */
  function CountChar(s: string, c: char): (n: nat)
    ensures n <= |s|
    ensures n == 0 <==> c !in s
  {
    if s == [] then 0 else (if s[0] == c then 1 else 0) + CountChar(s[1..], c)
  }

  lemma {:induction false} CountCharAppend(a: string, b: string, c: char)
    ensures CountChar(a + b, c) == CountChar(a, c) + CountChar(b, c)
  {
    if a != [] {
      assert (a + b)[1..] == a[1..] + b;
      CountCharAppend(a[1..], b, c);
    } else {
      assert a + b == b;
    }
  }

  /** Decimal rendering of a natural number, as Python's `%d`. */
  function NatToString(n: nat): (r: string)
    ensures |r| > 0
    ensures forall i :: 0 <= i < |r| ==> '0' <= r[i] <= '9'
  {
    if n < 10 then [DecimalDigit(n)] else NatToString(n / 10) + [DecimalDigit(n % 10)]
  }

  function DecimalDigit(d: nat): (c: char)
    requires d < 10
    ensures '0' <= c <= '9'
  {
    ('0' as int + d) as char
  }
}
