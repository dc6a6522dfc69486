/**
 * Public help-request intake (server/src/controllers/helpController.js): the
 * automatic urgency rule, the media payloads built from base64 uploads, and
 * the stored request.
 */
module HelpIntake {
  import opened Wrappers
  import opened HelpRequestModel
  import opened ObjectIds
  import Seqs
  import JsText

  const DefaultVoiceMime := "audio/mpeg"
  const DefaultImageMime := "image/jpeg"

  /** An uploaded file as the body gives it: base64 text and an optional MIME type. */
  datatype MediaInput = MediaInput(data: Option<string>, mimeType: Option<string>)

  /** The body of `POST /api/help`. */
  datatype HelpInput = HelpInput(
    name: Option<string>,
    location: Option<string>,
    disasterType: Option<string>,
    message: Option<string>,
    contactNumber: Option<string>,
    realLocation: Option<string>,
    voiceMessage: Option<MediaInput>,
    images: seq<Option<MediaInput>>)

  /** Weather decides first, then the disaster type; nothing computes `low`. */
  function ComputeUrgency(weather: string, disasterType: Option<string>): (r: Urgency)
    ensures r != Low
    ensures weather == "Rain" || weather == "Thunderstorm" ==> r == High
    ensures r == High <==>
      weather == "Rain" || weather == "Thunderstorm"
      || disasterType == Some("flood") || disasterType == Some("tsunami")
    ensures r == Medium <==>
      weather != "Rain" && weather != "Thunderstorm"
      && disasterType != Some("flood") && disasterType != Some("tsunami")
  {
    if weather == "Rain" || weather == "Thunderstorm" then High
    else if disasterType == Some("flood") || disasterType == Some("tsunami") then High
    else Medium
  }

  /** The place the weather is looked up for: `realLocation || location`. */
  function WeatherPlace(input: HelpInput): (r: Option<string>)
    ensures JsText.Truthy(input.realLocation) ==> r == input.realLocation
    ensures !JsText.Truthy(input.realLocation) ==> r == input.location
  {
    if JsText.Truthy(input.realLocation) then input.realLocation else input.location
  }

  /** `img?.data`: the upload exists and carries non-empty data. */
  predicate HasData(m: Option<MediaInput>) {
    m.Some? && JsText.Truthy(m.value.data)
  }

  /** One stored payload: the decoded bytes, their count, and the MIME type or its default. */
  function ToMedia(m: MediaInput, decode: string -> seq<bv8>, defaultMime: string): (r: Media)
    requires JsText.Truthy(m.data)
    ensures r.data == decode(m.data.value) && r.size == |r.data|
    ensures r.mimeType == (if JsText.Truthy(m.mimeType) then m.mimeType.value else defaultMime)
  {
    var buf := decode(m.data.value);
    Media(buf, if JsText.Truthy(m.mimeType) then m.mimeType.value else defaultMime, |buf|)
  }

  /** The voice payload: present exactly when the voice upload has data. */
  function VoicePayload(voice: Option<MediaInput>, decode: string -> seq<bv8>): (r: Option<Media>)
    ensures r.Some? <==> HasData(voice)
    ensures r.Some? ==> r.value == ToMedia(voice.value, decode, DefaultVoiceMime)
  {
    if HasData(voice) then Some(ToMedia(voice.value, decode, DefaultVoiceMime)) else None
  }

  /** `images.filter((img) => img?.data)`: the uploads that carry data, in upload order. */
  function Uploads(images: seq<Option<MediaInput>>): (r: seq<MediaInput>)
    ensures |r| <= |images|
    ensures forall i :: 0 <= i < |r| ==> JsText.Truthy(r[i].data)
    ensures forall m :: m in r <==> Some(m) in images && JsText.Truthy(m.data)
  {
    if images == [] then []
    else
      var rest := Uploads(images[1..]);
      assert images == [images[0]] + images[1..];
      if HasData(images[0]) then [images[0].value] + rest else rest
  }

  /** Filtering distributes over concatenation, so uploads keep their order and their number. */
  lemma {:induction false} UploadsAppend(a: seq<Option<MediaInput>>, b: seq<Option<MediaInput>>)
    ensures Uploads(a + b) == Uploads(a) + Uploads(b)
    decreases |a|
  {
    if a == [] {
      assert a + b == b;
    } else {
      assert (a + b)[0] == a[0] && (a + b)[1..] == a[1..] + b;
      UploadsAppend(a[1..], b);
    }
  }

  /** One upload is kept, as itself, exactly when it has data. */
  lemma UploadsSingle(m: Option<MediaInput>)
    ensures Uploads([m]) == if HasData(m) then [m.value] else []
  {
    assert [m][1..] == [];
  }

  /**
   * The image payloads: one for each upload that has data, in upload order,
   * and none for the others.
   */
  function ImagePayloads(images: seq<Option<MediaInput>>, decode: string -> seq<bv8>): (r: seq<Media>)
    ensures |r| == |Uploads(images)|
    ensures forall i :: 0 <= i < |r| ==> r[i] == ToMedia(Uploads(images)[i], decode, DefaultImageMime)
  {
    var uploads := Uploads(images);
    seq(|uploads|, i requires 0 <= i < |uploads| => ToMedia(uploads[i], decode, DefaultImageMime))
  }

  /** The payloads of two batches of uploads are those of the first followed by those of the second. */
  lemma ImagePayloadsAppend(a: seq<Option<MediaInput>>, b: seq<Option<MediaInput>>, decode: string -> seq<bv8>)
    ensures ImagePayloads(a + b, decode) == ImagePayloads(a, decode) + ImagePayloads(b, decode)
  {
    UploadsAppend(a, b);
    var l, ra, rb := ImagePayloads(a + b, decode), ImagePayloads(a, decode), ImagePayloads(b, decode);
    assert |l| == |ra + rb|;
    forall i | 0 <= i < |l|
      ensures l[i] == (ra + rb)[i]
    {
      if i < |ra| {
        assert Uploads(a + b)[i] == Uploads(a)[i];
      } else {
        assert Uploads(a + b)[i] == Uploads(b)[i - |ra|];
      }
    }
  }

  /** `createHelpRequest` with its fields before the schema defaults the status and flags. */
  function NewRequest(id: ObjectId, input: HelpInput, weather: string,
                      decode: string -> seq<bv8>, now: int): (r: HelpRequest)
    ensures r.id == id && r.createdAt == now
    ensures r.urgency == ComputeUrgency(weather, input.disasterType) && r.weatherCondition == weather
    ensures r.voiceMessage == VoicePayload(input.voiceMessage, decode)
    ensures r.images == ImagePayloads(input.images, decode)
    ensures r.status == Pending && r.assignedTo == None && r.resolvedAt == None
    ensures r.adminNotes == None && r.rejectionReason == None
    ensures r.publishedToSocial == Some(false)
    ensures r.name == input.name && r.location == input.location && r.message == input.message
    ensures r.contactNumber == input.contactNumber && r.realLocation == input.realLocation
    ensures r.disasterType == input.disasterType
  {
    HelpRequest(id, input.name, input.location, input.contactNumber, input.realLocation,
                input.disasterType, input.message,
                ComputeUrgency(weather, input.disasterType), weather,
                VoicePayload(input.voiceMessage, decode), ImagePayloads(input.images, decode),
                Pending, None, None, None, None, Some(false), now)
  }

  /**
   * `createHelpRequest`: `weather` is what the weather lookup returned for
   * `WeatherPlace(input)`; the new request is appended to the collection.
   */
  method CreateHelpRequest(store: HelpRequestCollection, input: HelpInput, weather: string,
                           decode: string -> seq<bv8>, freshId: ObjectId, now: int)
    returns (r: HelpRequest)
    requires store.Valid()
    requires forall i :: 0 <= i < |store.rows| ==> store.rows[i].id != freshId
    modifies store
    ensures store.Valid()
    ensures r == NewRequest(freshId, input, weather, decode, now)
    ensures store.rows == old(store.rows) + [r]
  {
    r := NewRequest(freshId, input, weather, decode, now);
    store.rows := store.rows + [r];
  }
}
