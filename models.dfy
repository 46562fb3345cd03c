/** The mutable publication objects that the DAISY parser fills in. */
module Models {
  import opened Seqs

  /** A value of the open-ended "additional" metadata bag. */
  datatype MetaValue = MetaString(s: string) | MetaNumber(n: real) | MetaBool(b: bool)

  /** A value of the publication's internal provenance map. */
  datatype InternalValue =
    | Text(s: string)
    | Archive(entries: seq<string>)  // the zip handle, seen through its entry list

  class Metadata {
    var RdfType: Option<string>
    var AdditionalJson: Option<map<string, MetaValue>>

    constructor ()
      ensures RdfType.None? && AdditionalJson.None?
    {
      RdfType := None;
      AdditionalJson := None;
    }
  }

  class Publication {
    var Context: seq<string>
    var Metadata: Metadata?
    var Internal: map<string, InternalValue>

    constructor ()
      ensures Context == [] && Metadata == null && Internal == map[]
    {
      Context := [];
      Metadata := null;
      Internal := map[];
    }

    /** Records one provenance entry; a key given twice keeps the later value. */
    method AddToInternal(key: string, value: InternalValue)
      modifies this
      ensures Internal == old(Internal)[key := value]
      ensures Context == old(Context) && Metadata == old(Metadata)
    {
      Internal := Internal[key := value];
    }
  }

  /** The synchronisation data of one reading-order item. */
  class MediaOverlay {
    var initialized: bool
    var duration: Option<real>
  }

  class Link {
    var MediaOverlays: MediaOverlay?
  }
}
