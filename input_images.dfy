/**
 * Persistence of the job's input images before submission: each
 * `{"name", "image"}` entry is base64-decoded and written to the input
 * directory under its name, in order. The directory is a store from file
 * name to contents that the loop updates in place.
 */
module InputImages {
  import opened Wrappers
  import opened Protocol

  /** One entry of the job's `images` list: a file name and its base64 text. */
  datatype InputImage = InputImage(name: string, image: string)

  /** Whether every payload decodes (`decode` is None where b64decode raises). */
  predicate AllDecodable(images: seq<InputImage>, decode: string -> Option<Bytes>) {
    forall i :: 0 <= i < |images| ==> decode(images[i].image).Some?
  }

  /** How many images the loop writes before one fails to decode. */
  function DecodedPrefix(images: seq<InputImage>, decode: string -> Option<Bytes>): (n: nat)
    ensures n <= |images|
    ensures AllDecodable(images[..n], decode)
    ensures n < |images| ==> decode(images[n].image).None?
  {
    if images == [] || decode(images[0].image).None? then 0
    else
      var n := 1 + DecodedPrefix(images[1..], decode);
      assert forall i :: 1 <= i < n ==> images[..n][i] == images[1..][..n - 1][i - 1];
      n
  }

  /** The loop stops at the first undecodable payload: `n` is the decoded prefix when nothing before it fails and it fails or is the end. */
  lemma {:induction false} DecodedPrefixIsFirstFailure(images: seq<InputImage>, decode: string -> Option<Bytes>, n: nat)
    requires n <= |images| && AllDecodable(images[..n], decode)
    requires n < |images| ==> decode(images[n].image).None?
    ensures DecodedPrefix(images, decode) == n
  {
    if n > 0 {
      assert images[..n][0] == images[0];
      var rest := images[1..][..n - 1];
      forall i | 0 <= i < |rest|
        ensures decode(rest[i].image).Some?
      {
        assert rest[i] == images[..n][i + 1];
      }
      DecodedPrefixIsFirstFailure(images[1..], decode, n - 1);
    }
  }

  /** Reference definition: the store after writing `images` one after the other. */
  function Written(files: map<string, Bytes>, images: seq<InputImage>, decode: string -> Option<Bytes>): map<string, Bytes>
    requires AllDecodable(images, decode)
  {
    if images == [] then files
    else
      var n := |images| - 1;
      assert AllDecodable(images[..n], decode);
      Written(files, images[..n], decode)[images[n].name := decode(images[n].image).value]
  }

  /** The store gains exactly the supplied names. */
  lemma {:induction false} WrittenKeys(files: map<string, Bytes>, images: seq<InputImage>, decode: string -> Option<Bytes>)
    requires AllDecodable(images, decode)
    ensures Written(files, images, decode).Keys == files.Keys + set i | 0 <= i < |images| :: images[i].name
  {
    if images != [] {
      var n := |images| - 1;
      WrittenKeys(files, images[..n], decode);
      assert (set i | 0 <= i < |images| :: images[i].name) ==
        (set i | 0 <= i < n :: images[..n][i].name) + {images[n].name};
    }
  }

  /** A supplied name holds the payload of the LAST image with that name: later writes overwrite earlier ones. */
  lemma {:induction false} LastWriteWins(files: map<string, Bytes>, images: seq<InputImage>, decode: string -> Option<Bytes>, i: nat)
    requires AllDecodable(images, decode)
    requires i < |images|
    requires forall j :: i < j < |images| ==> images[j].name != images[i].name
    ensures images[i].name in Written(files, images, decode)
    ensures Written(files, images, decode)[images[i].name] == decode(images[i].image).value
  {
    var n := |images| - 1;
    if i < n {
      assert forall j :: i < j < n ==> images[..n][j] == images[j];
      LastWriteWins(files, images[..n], decode, i);
    }
  }

  /** Names not supplied keep whatever the store held before (or stay absent). */
  lemma {:induction false} OtherNamesUnchanged(files: map<string, Bytes>, images: seq<InputImage>, decode: string -> Option<Bytes>, name: string)
    requires AllDecodable(images, decode)
    requires forall j :: 0 <= j < |images| ==> images[j].name != name
    ensures name in Written(files, images, decode) <==> name in files
    ensures name in files ==> Written(files, images, decode)[name] == files[name]
  {
    if images != [] {
      var n := |images| - 1;
      OtherNamesUnchanged(files, images[..n], decode, name);
    }
  }

  /** The input directory (`/input`), as a store from file name to contents. */
  class InputDirectory {
    var files: map<string, Bytes>

    constructor (initial: map<string, Bytes>)
      ensures files == initial
    {
      files := initial;
    }

    /**
     * The save loop of `handler`. Writes the images in order; an image whose
     * payload does not decode stops the loop (the exception escapes) with the
     * earlier ones already written.
     */
    method SaveAll(images: seq<InputImage>, decode: string -> Option<Bytes>) returns (r: Result<(), string>)
      modifies this
      ensures var n := DecodedPrefix(images, decode);
        && files == Written(old(files), images[..n], decode)
        && (r.Err? <==> n < |images|)
        && (r.Err? ==> r.error == images[n].name)
    {
      for i := 0 to |images|
        invariant AllDecodable(images[..i], decode)
        invariant files == Written(old(files), images[..i], decode)
      {
        var name := images[i].name;
        var data := decode(images[i].image);
        if data.None? {
          DecodedPrefixIsFirstFailure(images, decode, i);
          return Err(name);
        }
        assert images[..i + 1][..i] == images[..i];
        files := files[name := data.value];
      }
      assert images[..|images|] == images;
      DecodedPrefixIsFirstFailure(images, decode, |images|);
      r := Ok(());
    }
  }

}
