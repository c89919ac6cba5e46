/**
 * The parts of the GUI controller that compute: the image type taken from
 * the name of the file being saved, and the hit test that selects a face
 * under a mouse click.
 */
module Controllers {
  import opened Wrappers
  import opened JavaLang
  import opened Cli
  import opened FacialDetectors

  /** extractType on the file's name: the text after the last '.', or "png" when the name has no '.'. */
  function ExtractType(name: string): (r: string)
    ensures '.' !in name ==> r == "png"
    ensures '.' in name ==> '.' !in r && |r| < |name| && name == name[..|name| - |r| - 1] + "." + r
  {
    var dotIndex := LastIndexOf(name, '.');
    if dotIndex < 0 then "png"
    else
      assert name == name[..dotIndex] + "." + name[dotIndex + 1..];
      name[dotIndex + 1..]
  }

  /** File.getName: the last component of a path, after its last '/'. */
  function FileName(path: string): (name: string)
    ensures '/' !in name
    ensures |name| <= |path| && path[|path| - |name|..] == name
    ensures '/' in path ==> path[|path| - |name| - 1] == '/'
    ensures '/' !in path ==> name == path
  {
    path[LastIndexOf(path, '/') + 1..]
  }

  /**
   * The GUI takes the format from the file's name, the command line from the
   * whole output path. They agree when the name has an extension. When it has
   * none, the GUI writes PNG; the command line uses the whole path if it holds
   * no '.', and otherwise the text after a '.' in a directory name, which
   * then runs on past a '/'.
   */
  lemma {:induction false} ExtractTypeAgreesWithOutputFormat(path: string)
    ensures '.' in FileName(path) ==> ExtractType(FileName(path)) == OutputFormat(path)
    ensures '.' !in FileName(path) ==> ExtractType(FileName(path)) == "png"
    ensures '.' !in path ==> OutputFormat(path) == path
    ensures '.' !in FileName(path) && '.' in path ==> '/' in OutputFormat(path)
  {
    var name := FileName(path);
    var start := |path| - |name|;
    assert path[start..] == name;
    if '.' in name {
      SameFormatWithDot(name);
      FormatOfSuffix(path, start);
    } else if '.' in path {
      FormatCrossesSlash(path, start);
    }
  }

  /** On one name with a '.', the GUI and the command line take the same text. */
  lemma SameFormatWithDot(name: string)
    requires '.' in name
    ensures ExtractType(name) == OutputFormat(name)
  {
  }

  /** The text after the last '.' of a path is decided by any suffix that still holds a '.'. */
  lemma FormatOfSuffix(path: string, start: int)
    requires 0 <= start <= |path| && '.' in path[start..]
    ensures OutputFormat(path) == OutputFormat(path[start..])
  {
    var t := path[start..];
    var d := LastIndexOf(t, '.');
    assert path[start + d] == t[d];
    assert path[start + d + 1..] == t[d + 1..];
    LastIndexOfUnique(path, '.', start + d);
  }

  /** When every '.' comes before a '/', the text after the last '.' holds that '/'. */
  lemma FormatCrossesSlash(path: string, start: int)
    requires 1 <= start <= |path| && path[start - 1] == '/'
    requires '.' !in path[start..] && '.' in path
    ensures '/' in OutputFormat(path)
  {
    var k := LastIndexOf(path, '.');
    assert path[k + 1..][start - 1 - (k + 1)] == path[start - 1];
  }

  /**
   * The test in select: the point (already scaled to image coordinates)
   * lies in the face's rectangle, all four edges included. `r.x() + r.width()`
   * is an int sum, so it wraps before it is compared: a face whose right
   * or bottom edge overflows is never hit.
   */
  predicate Hits(f: Face, px: real, py: real)
    reads f, f.rect
    ensures f.rect.Valid() && 0 <= f.rect.width && !IsInt32(f.rect.x + f.rect.width) ==> !Hits(f, px, py)
    ensures f.rect.Valid() && 0 <= f.rect.height && !IsInt32(f.rect.y + f.rect.height) ==> !Hits(f, px, py)
  {
    var r := f.rect;
    px >= r.x as real && px <= Wrap32(r.x + r.width) as real &&
    py >= r.y as real && py <= Wrap32(r.y + r.height) as real
  }

  /** Without overflow, a hit is exactly a point in the closed rectangle. */
  lemma HitsInClosedRect(f: Face, px: real, py: real)
    requires IsInt32(f.rect.x + f.rect.width) && IsInt32(f.rect.y + f.rect.height)
    ensures Hits(f, px, py) <==>
            (f.rect.x as real <= px <= (f.rect.x + f.rect.width) as real &&
             f.rect.y as real <= py <= (f.rect.y + f.rect.height) as real)
  {
  }

  /** The position of the first face, in list order, that the point hits, or -1. */
  function FirstHit(faces: seq<Face>, px: real, py: real): (k: int)
    reads set i | 0 <= i < |faces| :: faces[i]
    reads set i | 0 <= i < |faces| :: faces[i].rect
    ensures -1 <= k < |faces|
    ensures k >= 0 ==> Hits(faces[k], px, py)
    ensures forall j :: 0 <= j < |faces| && (k < 0 || j < k) ==> !Hits(faces[j], px, py)
  {
    if |faces| == 0 then -1
    else if Hits(faces[0], px, py) then 0
    else
      var k := FirstHit(faces[1..], px, py);
      if k < 0 then -1 else k + 1
  }

  /** What select ends with: normally, or in a NullPointerException when no image has been processed. */
  datatype SelectOutcome = Selected | ThrewNullPointer

  /** The controller state that select reads and writes. */
  class Controller {
    /** recognizedFaces; None while it is still null. */
    var recognizedFaces: Option<seq<Face>>
    /** selectedFace; None while it is still null. */
    var selectedFace: Option<Face>
    /** Whether the classification list is disabled. */
    var boxesDisabled: bool

    constructor()
      ensures recognizedFaces == None && selectedFace == None && !boxesDisabled
    {
      recognizedFaces, selectedFace, boxesDisabled := None, None, false;
    }

    /**
     * select, from the point in image coordinates on: the first face hit
     * becomes the selected face, a miss leaves the selection as it was, and
     * the list is disabled exactly when nothing was hit.
     */
    method Select(px: real, py: real) returns (outcome: SelectOutcome)
      modifies this`selectedFace, this`boxesDisabled
      ensures recognizedFaces.None? ==>
                outcome == ThrewNullPointer && selectedFace == old(selectedFace) && boxesDisabled == old(boxesDisabled)
      ensures recognizedFaces.Some? ==>
                var k := FirstHit(recognizedFaces.value, px, py);
                && outcome == Selected
                && boxesDisabled == (k < 0)
                && (k >= 0 ==> selectedFace == Some(recognizedFaces.value[k]))
                && (k < 0 ==> selectedFace == old(selectedFace))
    {
      if recognizedFaces.None? {
        return ThrewNullPointer;
      }
      var faces := recognizedFaces.value;
      var found := false;
      var i := 0;
      while i < |faces|
        invariant 0 <= i <= |faces|
        invariant selectedFace == old(selectedFace)
        invariant forall j :: 0 <= j < i ==> !Hits(faces[j], px, py)
      {
        var f := faces[i];
        if Hits(f, px, py) {
          selectedFace := Some(f);
          found := true;
          FirstHitIsFirst(faces, px, py, i);
          break;
        }
        i := i + 1;
      }
      if !found {
        FirstHitIsFirst(faces, px, py, -1);
      }
      boxesDisabled := !found;
      outcome := Selected;
    }
  }

  /** FirstHit is the only position meeting its contract. */
  lemma FirstHitIsFirst(faces: seq<Face>, px: real, py: real, k: int)
    requires -1 <= k < |faces|
    requires k >= 0 ==> Hits(faces[k], px, py)
    requires forall j :: 0 <= j < |faces| && (k < 0 || j < k) ==> !Hits(faces[j], px, py)
    ensures FirstHit(faces, px, py) == k
  {
    var h := FirstHit(faces, px, py);
    if h >= 0 && k >= 0 {
      assert !(h < k) && !(k < h);
    }
  }
}
