/**
 The strings the item editor derives before uploading an image: the file
 extension (`uri.split('.').pop()`), the file name made from the current time,
 the storage path under `public/` and the content type.
 */
module ImagePath {

  /** `String.prototype.split` with a one-character separator: the pieces
      between separators, in order; an input without the separator is one
      piece, and the empty string is one empty piece. */
  function Split(s: string, sep: char): (parts: seq<string>)
    ensures |parts| >= 1
    ensures forall i :: 0 <= i < |parts| ==> sep !in parts[i]
    ensures Join(parts, sep) == s
  {
    if s == [] then [[]]
    else
      var rest := Split(s[1..], sep);
      if s[0] == sep then
        assert Join([[]] + rest, sep) == [sep] + Join(rest, sep) by {
          assert ([[]] + rest)[1..] == rest;
        }
        [[]] + rest
      else
        var parts := [[s[0]] + rest[0]] + rest[1..];
        assert Join(parts, sep) == [s[0]] + Join(rest, sep) by {
          if |rest| > 1 {
            assert parts[1..] == rest[1..];
          }
        }
        parts
  }

  /** The pieces glued back together with the separator between them. */
  function Join(parts: seq<string>, sep: char): string
  {
    if parts == [] then []
    else if |parts| == 1 then parts[0]
    else parts[0] + [sep] + Join(parts[1..], sep)
  }

  /** Splitting at the boundary of `t + [sep] + u` splits `t` and `u` apart. */
  lemma {:induction false} SplitAt(t: string, sep: char, u: string)
    ensures Split(t + [sep] + u, sep) == Split(t, sep) + Split(u, sep)
  {
    var s := t + [sep] + u;
    if t == [] {
      assert s[0] == sep && s[1..] == u;
    } else {
      assert s[0] == t[0] && s[1..] == t[1..] + [sep] + u;
      SplitAt(t[1..], sep, u);
      var head, pieces := Split(t[1..], sep), Split(u, sep);
      var rest := Split(s[1..], sep);
      assert rest == head + pieces;
      if t[0] != sep {
        assert rest[0] == head[0];
        assert rest[1..] == head[1..] + pieces;
        assert Split(s, sep) == [[t[0]] + head[0]] + (head[1..] + pieces);
        assert Split(t, sep) == [[t[0]] + head[0]] + head[1..];
      }
    }
  }

  /** A string without the separator splits into itself alone. */
  lemma SplitWithoutSep(u: string, sep: char)
    requires sep !in u
    ensures Split(u, sep) == [u]
  {
  }

  /** Gluing pieces: the last piece follows the last separator. */
  lemma {:induction false} JoinLast(parts: seq<string>, sep: char)
    requires |parts| >= 2
    ensures Join(parts, sep) == Join(parts[..|parts| - 1], sep) + [sep] + parts[|parts| - 1]
  {
    if |parts| > 2 {
      JoinLast(parts[1..], sep);
      assert parts[1..][..|parts| - 2] == parts[..|parts| - 1][1..];
    } else {
      assert parts[..1] == [parts[0]];
    }
  }

  /** `image.uri.split('.').pop()`: the last piece of the URI split at '.'. */
  function FileExt(uri: string): (ext: string)
    ensures '.' !in ext
  {
    var parts := Split(uri, '.');
    parts[|parts| - 1]
  }

  /** The extension is the text after the last '.', and the whole URI when
      it has no '.': it is a suffix of the URI without '.', and when the URI
      has a '.' one stands right before it. */
  lemma FileExtIsAfterLastDot(uri: string)
    ensures var ext := FileExt(uri);
      && |ext| <= |uri| && uri[|uri| - |ext|..] == ext
      && ('.' in uri ==> |ext| < |uri| && uri[|uri| - |ext| - 1] == '.')
      && ('.' !in uri ==> ext == uri)
  {
    var parts := Split(uri, '.');
    if |parts| >= 2 {
      JoinLast(parts, '.');
    }
  }

  /** Whatever precedes the last '.', the extension is what follows it. */
  lemma FileExtAfterLastDot(t: string, ext: string)
    requires '.' !in ext
    ensures FileExt(t + "." + ext) == ext
  {
    SplitAt(t, '.', ext);
    SplitWithoutSep(ext, '.');
  }

  function DigitChar(d: nat): (c: char)
    requires d < 10
    ensures '0' <= c <= '9' && c as int - '0' as int == d
  {
    ('0' as int + d) as char
  }

  /** A non-negative integer in decimal, as a template string renders it. */
  function Decimal(n: nat): (s: string)
    ensures |s| >= 1
    ensures forall i :: 0 <= i < |s| ==> '0' <= s[i] <= '9'
    ensures |s| > 1 ==> s[0] != '0'
  {
    if n < 10 then [DigitChar(n)]
    else Decimal(n / 10) + [DigitChar(n % 10)]
  }

  /** The value a string of decimal digits denotes, most significant first. */
  function DigitsValue(s: string): int
  {
    if s == [] then 0 else 10 * DigitsValue(s[..|s| - 1]) + (s[|s| - 1] as int - '0' as int)
  }

  /** The decimal rendering reads back as the number. */
  lemma {:induction false} DecimalRoundTrip(n: nat)
    ensures DigitsValue(Decimal(n)) == n
  {
    if n >= 10 {
      DecimalRoundTrip(n / 10);
      var s := Decimal(n);
      assert s[..|s| - 1] == Decimal(n / 10);
    }
  }

  /** `${Date.now()}.${fileExt}`, with the clock reading passed in. */
  function FileName(now: nat, ext: string): string
  {
    Decimal(now) + "." + ext
  }

  /** `public/${fileName}` for the image at `uri` saved at time `now`. */
  function StoragePath(now: nat, uri: string): (path: string)
    ensures |path| > 7 && path[..7] == "public/"
  {
    "public/" + FileName(now, FileExt(uri))
  }

  /** The stored file keeps the image's extension: the timestamp in front
      of it contributes no '.' after the one it adds. */
  lemma StoragePathKeepsExt(now: nat, uri: string)
    ensures FileExt(StoragePath(now, uri)) == FileExt(uri)
  {
    var ext := FileExt(uri);
    var t := "public/" + Decimal(now);
    assert StoragePath(now, uri) == t + "." + ext;
    FileExtAfterLastDot(t, ext);
  }

  /** `image/${fileExt}`. */
  function ContentType(uri: string): (contentType: string)
    ensures |contentType| >= 6 && contentType[..6] == "image/"
    ensures '.' !in contentType
  {
    "image/" + FileExt(uri)
  }

  /** The content type names the extension of the file actually stored. */
  lemma ContentTypeMatchesPath(now: nat, uri: string)
    ensures ContentType(uri) == "image/" + FileExt(StoragePath(now, uri))
  {
    StoragePathKeepsExt(now, uri);
  }
}
