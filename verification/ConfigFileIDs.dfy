/**
 IDs of config files (pkg/utils/utils.go). The md5 of the file name is a
 parameter: a string without the '-' separator, as 32 hex digits are.
 */
module ConfigFileIDs {
  import opened Text

  const SEP: char := '-'

  function GenConfigFileID(prefix: string, nameHash: string, version: int): string {
    prefix + [SEP] + nameHash + [SEP] + FormatInt(version)
  }

  function GetConfigFileVersion(fileID: string): Option<int> {
    var fields := Split(fileID, SEP);
    ParseInt(fields[|fields| - 1])
  }

  /** The field that follows the last separator of a formatted version. */
  lemma LastFieldOfVersion(head: string, version: int)
    ensures var fields := Split(head + [SEP] + FormatInt(version), SEP);
            fields[|fields| - 1] == FormatNat(if version < 0 then -version else version)
  {
    var n: nat := if version < 0 then -version else version;
    NatChars(n, SEP);
    if version < 0 {
      assert head + [SEP] + FormatInt(version) == (head + [SEP]) + [SEP] + FormatNat(n);
      LastField(head + [SEP], FormatNat(n), SEP);
    } else {
      LastField(head, FormatNat(n), SEP);
    }
  }

  /**
   Reading the version back inverts generating the ID for every prefix, hyphens included,
   exactly when the version is not negative.
   */
  lemma VersionRoundTrip(prefix: string, nameHash: string, version: int)
    requires MIN_INT64 <= version <= MAX_INT64
    ensures GetConfigFileVersion(GenConfigFileID(prefix, nameHash, version)) == Some(version)
            <==> version >= 0
  {
    var n: nat := if version < 0 then -version else version;
    LastFieldOfVersion(prefix + [SEP] + nameHash, version);
    FormatNatValue(n);
    assert FormatNat(n) == FormatInt(n);
    if n <= MAX_INT64 { ParseFormat(n); }
  }

  /** Two IDs are equal only for the same prefix, file and version. */
  lemma IDInjective(p: string, h: string, v: nat, p': string, h': string, v': nat)
    requires SEP !in h && SEP !in h'
    requires GenConfigFileID(p, h, v) == GenConfigFileID(p', h', v')
    ensures p == p' && h == h' && v == v'
  {
    NatChars(v, SEP);
    NatChars(v', SEP);
    CutLast(p + [SEP] + h, FormatNat(v), p' + [SEP] + h', FormatNat(v'), SEP);
    CutLast(p, h, p', h', SEP);
    FormatNatInjective(v, v');
  }

  /** The same for any versions, negative ones too, when no hash is empty. */
  lemma AnyIDInjective(p: string, h: string, v: int, p': string, h': string, v': int)
    requires SEP !in h && SEP !in h' && h != "" && h' != ""
    requires GenConfigFileID(p, h, v) == GenConfigFileID(p', h', v')
    ensures p == p' && h == h' && v == v'
  {
    var n: nat, n': nat := if v < 0 then -v else v, if v' < 0 then -v' else v';
    CutVersion(p + [SEP] + h, v, p' + [SEP] + h', v');
    FormatNatInjective(n, n');
    hide FormatNat;
    assert (p + [SEP] + h) + [] == p + [SEP] + h && (p' + [SEP] + h') + [] == p' + [SEP] + h';
    if (v < 0) == (v' < 0) {
      assert v < 0 ==> ((p + [SEP] + h) + [SEP])[..|p + [SEP] + h|] == p + [SEP] + h;
      assert v < 0 ==> ((p' + [SEP] + h') + [SEP])[..|p' + [SEP] + h'|] == p' + [SEP] + h';
      CutLast(p, h, p', h', SEP);
    } else if v < 0 {
      NoSeparatorLast(p + [SEP] + h, p', h');
    } else {
      NoSeparatorLast(p' + [SEP] + h', p, h);
    }
  }

  /** The sign of a negative version is one more separator. */
  lemma CutVersion(head: string, v: int, head': string, v': int)
    requires head + [SEP] + FormatInt(v) == head' + [SEP] + FormatInt(v')
    ensures FormatNat(if v < 0 then -v else v) == FormatNat(if v' < 0 then -v' else v')
    ensures head + (if v < 0 then [SEP] else []) == head' + (if v' < 0 then [SEP] else [])
  {
    var n: nat, n': nat := if v < 0 then -v else v, if v' < 0 then -v' else v';
    NatChars(n, SEP);
    NatChars(n', SEP);
    SignFirst(head, v);
    SignFirst(head', v');
    hide FormatNat, FormatInt;
    CutLast(head + (if v < 0 then [SEP] else []), FormatNat(n), head' + (if v' < 0 then [SEP] else []), FormatNat(n'), SEP);
  }

  lemma SignFirst(head: string, v: int)
    ensures head + [SEP] + FormatInt(v)
            == (head + (if v < 0 then [SEP] else [])) + [SEP] + FormatNat(if v < 0 then -v else v)
  {
    hide FormatNat;
  }

  lemma NoSeparatorLast(a: string, p: string, h: string)
    requires SEP !in h && h != ""
    ensures a + [SEP] != p + [SEP] + h
  {
    var s, t := a + [SEP], p + [SEP] + h;
    assert s[|s| - 1] == SEP;
    assert t[|t| - 1] == h[|h| - 1];
  }

  /** The ID of the next version differs from the ID of every version so far, whoever generated it. */
  lemma NextVersionIsFresh(p: string, h: string, v: nat, p': string, h': string, v': nat)
    requires SEP !in h && SEP !in h'
    requires (p, h) != (p', h') || v' <= v
    ensures GenConfigFileID(p, h, v + 1) != GenConfigFileID(p', h', v')
  {
    if GenConfigFileID(p, h, v + 1) == GenConfigFileID(p', h', v') {
      IDInjective(p, h, v + 1, p', h', v');
      assert false;
    }
  }

  /** The version after a version; int64 wraps around. */
  function NextVersion(version: int): int {
    if version == MAX_INT64 then MIN_INT64 else version + 1
  }

  /** The ID that is generated next never reads as the version it was generated from, not even when that wraps around. */
  lemma NextDiffers(fileID: string, p: string, h: string)
    requires GetConfigFileVersion(fileID).Some?
    ensures GenConfigFileID(p, h, NextVersion(GetConfigFileVersion(fileID).value)) != fileID
  {
    VersionRange(fileID);
    hide GetConfigFileVersion, GenConfigFileID;
    var v := GetConfigFileVersion(fileID).value;
    if v == MAX_INT64 {
      WrappedVersion(p, h, MIN_INT64);
    } else {
      VersionRoundTrip(p, h, v + 1);
    }
  }

  lemma WrappedVersion(p: string, h: string, version: int)
    requires version < 0 - MAX_INT64
    ensures GetConfigFileVersion(GenConfigFileID(p, h, version)) == None
  {
    hide FormatInt, FormatNat, ParseInt;
    LastFieldOfVersion(p + [SEP] + h, version);
    ParseTooLarge(0 - version);
  }

  /** A version that is read is not negative. */
  lemma VersionRange(fileID: string)
    requires GetConfigFileVersion(fileID).Some?
    ensures 0 <= GetConfigFileVersion(fileID).value <= MAX_INT64
  {
    SplitPieces(fileID, SEP);
    var fields := Split(fileID, SEP);
    NoMinus(fields[|fields| - 1]);
  }

  lemma NoMinus(s: string)
    requires SEP !in s && ParseInt(s).Some?
    ensures ParseInt(s).value >= 0
  {
    hide NatValue;
  }
}
